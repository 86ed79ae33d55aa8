/**
  * The Cursor exporter (src/relay/exporters/cursor.py): one rules file and
  * one copy-paste prompt per role, an initial state.yml, and the context
  * file when the workflow has one.  The files are returned as (path,
  * content) pairs, paths relative to the output directory, in the order
  * they are created; writing them is not modelled.
  */
module CursorExport {
  import opened Wrappers
  import opened Dicts
  import opened Schema
  import Text
  import opened Workflow
  import opened Roles
  import Validator

  const WorkflowPrefix := ".cursor/workflow/"

  const StatePath := ".cursor/workflow/state.yml"

  const ContextPath := ".cursor/workflow/00_context.md"

  function MdcPath(role: string): string {
    ".cursor/rules/" + role + ".mdc"
  }

  function PromptPath(role: string): string {
    ".cursor/prompts/" + role + ".txt"
  }

  /** Every path placed under the exported workflow directory. */
  function Prefixed(paths: seq<string>): (r: seq<string>)
    ensures |r| == |paths|
    ensures forall k :: 0 <= k < |paths| ==> (Text.StartsWith(r[k], WorkflowPrefix)
      && r[k][|WorkflowPrefix|..] == paths[k])
  {
    seq(|paths|, k requires 0 <= k < |paths| => WorkflowPrefix + paths[k])
  }

  // ----- _generate_mdc -----

  /** The separator of the description line: the source holds the three characters of a mis-decoded em dash. */
  const DescriptionDash := "\U{E2}\U{20AC}\U{201D}"

  function ReadsText(names: seq<string>): (r: string)
    ensures names == [] ==> r == "none"
    ensures names != [] ==> r == Text.Join(names, ", ")
  {
    if names == [] then "none" else Text.Join(names, ", ")
  }

  /** Front matter, title, system prompt and file ownership: always present. */
  function MdcHead(roleName: string, role: RoleSpec, def: RoleDef): seq<string> {
    [ "---",
      "description: \"" + Text.Title(roleName) + " Agent " + DescriptionDash + " " + def.description + "\"",
      "alwaysApply: false",
      "---",
      "",
      "# " + Text.Title(roleName) + " Agent Rules",
      "",
      Text.Strip(role.systemPrompt),
      "",
      "## File Ownership",
      "",
      "**Reads**: " + ReadsText(def.readFiles),
      "**Writes**: " + Text.Join(def.writeFiles, ", "),
      "" ]
  }

  /** The output format section, only for a non-empty format. */
  function MdcFormat(role: RoleSpec): (r: seq<string>)
    ensures r == [] <==> !Text.Truthy(role.outputFormat)
    ensures r != [] ==> r == ["## Output Format", "", Text.Strip(role.outputFormat.value), ""]
  {
    if Text.Truthy(role.outputFormat) then ["## Output Format", "", Text.Strip(role.outputFormat.value), ""] else []
  }

  /** The verdict section, only for a non-empty verdict field; it names both verdict values. */
  function MdcVerdict(role: RoleSpec): (r: seq<string>)
    ensures r == [] <==> !Text.Truthy(role.verdictField)
    ensures r != [] ==> (|r| == 4 && r[0] == "## Verdict"
      && Text.Contains(r[2], "## " + role.verdictField.value + ": " + Text.Shown(role.approveValue))
      && Text.Contains(r[2], "## " + role.verdictField.value + ": " + Text.Shown(role.rejectValue)))
  {
    if Text.Truthy(role.verdictField) then
      var field := role.verdictField.value;
      var approve := "## " + field + ": " + Text.Shown(role.approveValue);
      var reject := "## " + field + ": " + Text.Shown(role.rejectValue);
      var line := "Your output MUST include: `" + approve + ("` or `" + reject + "`");
      Text.ContainsBoth("Your output MUST include: `", approve, "` or `", reject, "`");
      ["## Verdict", "", line, ""]
    else []
  }

  function MdcLines(roleName: string, role: RoleSpec, def: RoleDef): seq<string> {
    MdcHead(roleName, role, def) + MdcFormat(role) + MdcVerdict(role)
  }

  /**
    * `_generate_mdc`: the rule lines joined by newlines. When no field holds a
    * newline, the file splits back into exactly those lines.
    */
  function GenerateMdc(roleName: string, role: RoleSpec, def: RoleDef): (r: string)
    ensures NoNewlines(MdcLines(roleName, role, def)) ==> Text.SplitOn(r, '\n') == MdcLines(roleName, role, def)
  {
    var lines := MdcLines(roleName, role, def);
    if NoNewlines(lines) then
      Text.SplitOnJoin(lines, '\n');
      Text.Join(lines, "\n")
    else
      Text.Join(lines, "\n")
  }

  /**
    * The rules file always has its fourteen fixed lines, and four more for
    * each of the format and verdict sections that the role enables.
    */
  lemma MdcShape(roleName: string, role: RoleSpec, def: RoleDef)
    ensures var lines := MdcLines(roleName, role, def);
      && |lines| == 14 + (if Text.Truthy(role.outputFormat) then 4 else 0) + (if Text.Truthy(role.verdictField) then 4 else 0)
      && lines[11] == "**Reads**: " + (if def.readFiles == [] then "none" else Text.Join(def.readFiles, ", "))
      && (Text.Truthy(role.outputFormat) ==> lines[14] == "## Output Format")
      && (Text.Truthy(role.verdictField) ==> lines[|lines| - 4] == "## Verdict")
  {
    var head := MdcHead(roleName, role, def);
    var lines := MdcLines(roleName, role, def);
    assert lines == head + MdcFormat(role) + MdcVerdict(role);
    if Text.Truthy(role.verdictField) {
      assert lines[|lines| - 4] == MdcVerdict(role)[0];
    }
  }

  // ----- _generate_prompt -----

  function PromptLines(roleName: string, def: RoleDef): (r: seq<string>)
    ensures |r| == 5 <==> def.readFiles != []
    ensures |r| == 4 <==> def.readFiles == []
    ensures def.readFiles != [] ==> r[3] == "Then read: " + Text.Join(Prefixed(def.readFiles), ", ") + "."
    ensures r[|r| - 1] == "Write your output to: " + Text.Join(Prefixed(def.writeFiles), ", ") + ". Update state.yml when done."
  {
    var intro := [
      "Act as the " + Text.Title(roleName) + " Agent. Follow the rules defined in @.cursor/rules/" + roleName + ".mdc exactly.",
      "",
      "Start by reading .cursor/workflow/state.yml to check the current stage." ];
    var readLine := if def.readFiles != [] then ["Then read: " + Text.Join(Prefixed(def.readFiles), ", ") + "."] else [];
    var r := intro + readLine + ["Write your output to: " + Text.Join(Prefixed(def.writeFiles), ", ") + ". Update state.yml when done."];
    assert |r| == 4 + |readLine|;
    r
  }

  /**
    * `_generate_prompt`: the prompt lines joined by newlines. When no name or
    * path holds a newline, the file splits back into exactly those lines.
    */
  function GeneratePrompt(roleName: string, def: RoleDef): (r: string)
    ensures NoNewlines(PromptLines(roleName, def)) ==> Text.SplitOn(r, '\n') == PromptLines(roleName, def)
  {
    var lines := PromptLines(roleName, def);
    if NoNewlines(lines) then
      Text.SplitOnJoin(lines, '\n');
      Text.Join(lines, "\n")
    else
      Text.Join(lines, "\n")
  }

  predicate NoNewlines(lines: seq<string>) {
    forall k :: 0 <= k < |lines| ==> '\n' !in lines[k]
  }

  // ----- _generate_state_yml -----

  function LimitLine(limit: (string, int)): string {
    limit.0 + ": " + Text.IntToString(limit.1)
  }

  /** The fixed header of an initial state file: stage at the initial stage, counters at zero. */
  function StateHeader(workflow: Definition): seq<string> {
    [ "# Multi-Agent Workflow State Machine",
      "# Generated from: " + workflow.name,
      "",
      "stage: " + workflow.initialStage,
      "plan_version: 0",
      "approved_plan_version: null",
      "last_updated_by: null",
      "last_updated_at: null",
      "plan_iteration_count: 0",
      "impl_iteration_count: 0" ]
  }

  function LimitLines(limits: Dict<int>): (r: seq<string>)
    ensures |r| == |limits|
    ensures forall k :: 0 <= k < |limits| ==> r[k] == LimitLine(limits[k])
  {
    seq(|limits|, k requires 0 <= k < |limits| => LimitLine(limits[k]))
  }

  lemma LimitLinesSnoc(limits: Dict<int>, i: nat)
    requires i < |limits|
    ensures LimitLines(limits[..i + 1]) == LimitLines(limits[..i]) + [LimitLine(limits[i])]
  {
    assert limits[..i + 1][..i] == limits[..i];
  }

  /** The state file's lines: the header, then one "key: value" line per limit in order. */
  function StateLines(workflow: Definition): (r: seq<string>)
    ensures |r| == 10 + |workflow.limits|
    ensures r[3] == "stage: " + workflow.initialStage
    ensures forall k :: 0 <= k < |workflow.limits| ==> r[10 + k] == LimitLine(workflow.limits[k])
  {
    StateHeader(workflow) + LimitLines(workflow.limits)
  }

  /** `_generate_state_yml`. */
  method GenerateStateYml(workflow: Definition) returns (text: string)
    ensures text == Text.Join(StateLines(workflow), "\n")
  {
    var limits := workflow.limits;
    var lines := StateHeader(workflow);
    for i := 0 to |limits|
      invariant lines == StateHeader(workflow) + LimitLines(limits[..i])
    {
      var (key, val) := limits[i];
      var line := key + ": " + Text.IntToString(val);
      LimitLinesSnoc(limits, i);
      assert line == LimitLine(limits[i]);
      lines := lines + [line];
    }
    assert limits[..|limits|] == limits;
    text := Text.Join(lines, "\n");
  }

  // ----- export_to_cursor -----

  /** What stops the export: a role file that does not parse or does not validate. */
  datatype ExportError =
    | RoleYaml(role: string, detail: string)
    | RoleInvalid(role: string, errors: seq<SchemaError>)

  /** `RoleSpec.model_validate` of a role file, failures named after the role. */
  function LoadRole(name: string, file: Validator.RoleFile): (r: Result<RoleSpec, ExportError>)
    ensures r.Success? <==> file.RoleDocument? && ParseRole(file.raw).Success?
    ensures r.Success? ==> r.value == ParseRole(file.raw).value
  {
    match file
    case RoleYamlError(e) => Failure(RoleYaml(name, e))
    case RoleNotMapping => Failure(RoleInvalid(name, [Validator.NotMappingError("RoleSpec")]))
    case RoleDocument(raw) =>
      match ParseRole(raw)
      case Success(spec) => Success(spec)
      case Failure(errs) => Failure(RoleInvalid(name, errs))
  }

  /** A role is exported when its rules file exists. */
  predicate Present(dir: Validator.WorkflowDir, def: RoleDef) {
    def.rules in dir.roleFiles
  }

  /** The names of the roles whose rules files exist, in roles order. */
  function PresentNames(dir: Validator.WorkflowDir, roles: Dict<RoleDef>): (r: seq<string>)
    ensures forall x :: x in r <==> exists i :: 0 <= i < |roles| && roles[i].0 == x && Present(dir, roles[i].1)
    decreases |roles|
  {
    if roles == [] then []
    else
      var init := roles[..|roles| - 1];
      var last := roles[|roles| - 1];
      assert forall i :: 0 <= i < |init| ==> init[i] == roles[i];
      PresentNames(dir, init) + (if Present(dir, last.1) then [last.0] else [])
  }

  /** One exported role: its name, its validated spec and its definition in the workflow. */
  datatype RoleExport = RoleExport(name: string, spec: RoleSpec, def: RoleDef)

  function Names(exports: seq<RoleExport>): seq<string> {
    seq(|exports|, k requires 0 <= k < |exports| => exports[k].name)
  }

  /**
    * The roles exported, in order, or the first role file that fails:
    * roles whose rules file is missing are skipped.
    */
  function RoleExports(dir: Validator.WorkflowDir, roles: Dict<RoleDef>): (r: Result<seq<RoleExport>, ExportError>)
    decreases |roles|
  {
    if roles == [] then Success([])
    else
      var prior := RoleExports(dir, roles[..|roles| - 1]);
      var (name, def) := roles[|roles| - 1];
      if prior.Failure? then prior
      else if !Present(dir, def) then prior
      else
        match LoadRole(name, dir.roleFiles[def.rules])
        case Failure(e) => Failure(e)
        case Success(spec) => Success(prior.value + [RoleExport(name, spec, def)])
  }

  /** An export that succeeds covers exactly the roles whose rules file exists, in roles order. */
  lemma {:induction false} ExportsPresentRoles(dir: Validator.WorkflowDir, roles: Dict<RoleDef>)
    requires RoleExports(dir, roles).Success?
    ensures Names(RoleExports(dir, roles).value) == PresentNames(dir, roles)
    decreases |roles|
  {
    if roles != [] {
      var init := roles[..|roles| - 1];
      var last := roles[|roles| - 1];
      ExportStep(dir, roles, |roles| - 1);
      assert init == roles[..|roles| - 1];
      ExportsPresentRoles(dir, init);
      var prior := RoleExports(dir, init).value;
      var e := RoleExports(dir, roles).value;
      if Present(dir, last.1) {
        assert e == prior + [e[|e| - 1]];
        assert Names(e) == Names(prior) + [last.0];
      } else {
        assert e == prior;
      }
    }
  }

  /** Exporting one more role: skipped when its file is missing, otherwise loaded and appended or failed. */
  lemma ExportStep(dir: Validator.WorkflowDir, roles: Dict<RoleDef>, i: nat)
    requires i < |roles|
    ensures var prior := RoleExports(dir, roles[..i]);
      var (name, def) := roles[i];
      RoleExports(dir, roles[..i + 1]) ==
        if prior.Failure? || !Present(dir, def) then prior
        else match LoadRole(name, dir.roleFiles[def.rules])
          case Failure(e) => Failure(e)
          case Success(spec) => Success(prior.value + [RoleExport(name, spec, def)])
  {
    assert roles[..i + 1][..i] == roles[..i];
  }

  /** The export succeeds exactly when every present role's file parses and validates. */
  lemma {:induction false} ExportSucceeds(dir: Validator.WorkflowDir, roles: Dict<RoleDef>)
    ensures RoleExports(dir, roles).Success? <==>
      forall i :: 0 <= i < |roles| && Present(dir, roles[i].1) ==>
        LoadRole(roles[i].0, dir.roleFiles[roles[i].1.rules]).Success?
    decreases |roles|
  {
    if roles != [] {
      var init := roles[..|roles| - 1];
      ExportSucceeds(dir, init);
      assert forall i :: 0 <= i < |init| ==> init[i] == roles[i];
    }
  }

  /** A role without rules file leaves the export as it was. */
  lemma ExportSkip(dir: Validator.WorkflowDir, roles: Dict<RoleDef>, i: nat, exports: seq<RoleExport>)
    requires i < |roles| && RoleExports(dir, roles[..i]) == Success(exports) && !Present(dir, roles[i].1)
    ensures RoleExports(dir, roles[..i + 1]) == Success(exports)
  {
    ExportStep(dir, roles, i);
  }

  /** A role whose rules file fails to load fails the export with that error. */
  lemma ExportFail(dir: Validator.WorkflowDir, roles: Dict<RoleDef>, i: nat, exports: seq<RoleExport>)
    requires i < |roles| && RoleExports(dir, roles[..i]) == Success(exports) && Present(dir, roles[i].1)
    requires LoadRole(roles[i].0, dir.roleFiles[roles[i].1.rules]).Failure?
    ensures RoleExports(dir, roles[..i + 1]) == Failure(LoadRole(roles[i].0, dir.roleFiles[roles[i].1.rules]).error)
  {
    ExportStep(dir, roles, i);
  }

  /** A role whose rules file loads is appended to the export. */
  lemma ExportAppend(dir: Validator.WorkflowDir, roles: Dict<RoleDef>, i: nat, exports: seq<RoleExport>)
    requires i < |roles| && RoleExports(dir, roles[..i]) == Success(exports) && Present(dir, roles[i].1)
    requires LoadRole(roles[i].0, dir.roleFiles[roles[i].1.rules]).Success?
    ensures RoleExports(dir, roles[..i + 1]) == Success(exports
      + [RoleExport(roles[i].0, LoadRole(roles[i].0, dir.roleFiles[roles[i].1.rules]).value, roles[i].1)])
  {
    ExportStep(dir, roles, i);
  }

  /** Once a role file fails, the export has failed whatever roles follow. */
  lemma {:induction false} FailureStays(dir: Validator.WorkflowDir, roles: Dict<RoleDef>, n: nat, m: nat)
    requires n <= m <= |roles| && RoleExports(dir, roles[..n]).Failure?
    ensures RoleExports(dir, roles[..m]) == RoleExports(dir, roles[..n])
    decreases m
  {
    if m > n {
      FailureStays(dir, roles, n, m - 1);
      assert roles[..m][..m - 1] == roles[..m - 1];
    }
  }

  /** One role's files: the rules file, then the prompt. */
  function RoleFilePair(e: RoleExport): seq<(string, string)> {
    [(MdcPath(e.name), GenerateMdc(e.name, e.spec, e.def)), (PromptPath(e.name), GeneratePrompt(e.name, e.def))]
  }

  /** `f` of every element, concatenated in order. */
  function FlatMap<E, T>(xs: seq<E>, f: E -> seq<T>): seq<T>
    decreases |xs|
  {
    if xs == [] then [] else FlatMap(xs[..|xs| - 1], f) + f(xs[|xs| - 1])
  }

  lemma FlatMapSnoc<E, T>(xs: seq<E>, x: E, f: E -> seq<T>)
    ensures FlatMap(xs + [x], f) == FlatMap(xs, f) + f(x)
  {
    assert (xs + [x])[..|xs|] == xs;
  }

  /** When every element maps to two items, element `k`'s items sit at `2k` and `2k + 1`. */
  lemma {:induction false} FlatMapPairs<E, T>(xs: seq<E>, f: E -> seq<T>, k: nat)
    requires forall x :: |f(x)| == 2
    ensures |FlatMap(xs, f)| == 2 * |xs|
    ensures k < |xs| ==> FlatMap(xs, f)[2 * k] == f(xs[k])[0] && FlatMap(xs, f)[2 * k + 1] == f(xs[k])[1]
    decreases |xs|
  {
    if xs != [] {
      var init := xs[..|xs| - 1];
      FlatMapPairs(init, f, k);
      if k < |init| {
        assert init[k] == xs[k];
      }
    }
  }

  /** Every exported role's files, in roles order. */
  function RoleFiles(exports: seq<RoleExport>): (r: seq<(string, string)>)
    ensures |r| == 2 * |exports|
  {
    FlatMapPairs(exports, RoleFilePair, 0);
    FlatMap(exports, RoleFilePair)
  }

  /** Rules files sit at even positions, each role's prompt right after its rules file. */
  lemma RoleFilesPaired(exports: seq<RoleExport>, k: nat)
    requires k < |exports|
    ensures RoleFiles(exports)[2 * k] == (MdcPath(exports[k].name), GenerateMdc(exports[k].name, exports[k].spec, exports[k].def))
    ensures RoleFiles(exports)[2 * k + 1] == (PromptPath(exports[k].name), GeneratePrompt(exports[k].name, exports[k].def))
  {
    FlatMapPairs(exports, RoleFilePair, k);
  }

  /** All created files, in creation order. */
  function CreatedFiles(exports: seq<RoleExport>, stateYml: string, context: Option<string>): (r: seq<(string, string)>)
    ensures |r| == 2 * |exports| + 1 + (if context.Some? then 1 else 0)
    ensures r[2 * |exports|] == (StatePath, stateYml)
    ensures context.Some? ==> r[|r| - 1] == (ContextPath, context.value)
  {
    RoleFiles(exports) + [(StatePath, stateYml)] + (if context.Some? then [(ContextPath, context.value)] else [])
  }

  /**
    * `export_to_cursor`, given the validated workflow, the role files
    * present in the workflow directory and the context file if it exists.
    */
  method ExportToCursor(workflow: Definition, dir: Validator.WorkflowDir, context: Option<string>)
    returns (r: Result<seq<(string, string)>, ExportError>)
    ensures RoleExports(dir, workflow.roles).Failure? ==> r == Failure(RoleExports(dir, workflow.roles).error)
    ensures RoleExports(dir, workflow.roles).Success? ==>
      r == Success(CreatedFiles(RoleExports(dir, workflow.roles).value, Text.Join(StateLines(workflow), "\n"), context))
  {
    var roleFiles := ExportRoles(dir, workflow.roles);
    if roleFiles.Failure? {
      return Failure(roleFiles.error);
    }
    var created := roleFiles.value;
    var stateYml := GenerateStateYml(workflow);
    created := created + [(StatePath, stateYml)];
    ghost var upToState := created;
    if context.Some? {
      created := created + [(ContextPath, context.value)];
    }
    assert created == upToState + (if context.Some? then [(ContextPath, context.value)] else []);
    return Success(created);
  }

  /** The loop over roles: skip a role without rules file, stop at the first that fails to load. */
  method ExportRoles(dir: Validator.WorkflowDir, roles: Dict<RoleDef>)
    returns (r: Result<seq<(string, string)>, ExportError>)
    ensures RoleExports(dir, roles).Failure? ==> r == Failure(RoleExports(dir, roles).error)
    ensures RoleExports(dir, roles).Success? ==> r == Success(RoleFiles(RoleExports(dir, roles).value))
  {
    var created: seq<(string, string)> := [];
    ghost var exports: seq<RoleExport> := [];
    for i := 0 to |roles|
      invariant RoleExports(dir, roles[..i]) == Success(exports)
      invariant created == RoleFiles(exports)
    {
      var (name, def) := roles[i];
      if def.rules !in dir.roleFiles {
        ExportSkip(dir, roles, i, exports);
        continue;
      }
      var role := LoadRole(name, dir.roleFiles[def.rules]);
      if role.Failure? {
        ExportFail(dir, roles, i, exports);
        FailureStays(dir, roles, i + 1, |roles|);
        assert roles[..|roles|] == roles;
        return Failure(role.error);
      }
      ghost var e := RoleExport(name, role.value, def);
      ghost var before := created;
      var mdc := GenerateMdc(name, role.value, def);
      created := created + [(MdcPath(name), mdc)];
      var prompt := GeneratePrompt(name, def);
      created := created + [(PromptPath(name), prompt)];
      ExportAppend(dir, roles, i, exports);
      FlatMapSnoc(exports, e, RoleFilePair);
      assert created == before + [(MdcPath(name), mdc), (PromptPath(name), prompt)];
      assert RoleFilePair(e) == [(MdcPath(name), mdc), (PromptPath(name), prompt)];
      exports := exports + [e];
    }
    assert roles[..|roles|] == roles;
    return Success(created);
  }
}
