/**
  * Prompt composition (src/relay/prompt.py): the text handed to the agent
  * of the current stage, assembled from its role, the run state, the
  * input artifacts and the output instructions, one section after another.
  */
module Prompt {
  import opened Wrappers
  import opened Dicts
  import Text
  import opened Workflow
  import opened Roles
  import State
  import Artifacts

  // ----- _find_iteration_limit -----

  function WordSet(ws: seq<string>): set<string> {
    set i | 0 <= i < |ws| :: ws[i]
  }

  /** The words of a stage name: lower-cased, "_" read as a space. */
  function StageWords(stage: string): set<string> {
    WordSet(Text.Words(Text.ReplaceAll(Text.Lower(stage), "_", " ")))
  }

  /**
    * The words of a limit key: lower-cased, "_" read as a space, and the
    * substrings "max" and "iterations" deleted wherever they occur.
    */
  function LimitWords(key: string): set<string> {
    var spaced := Text.ReplaceAll(Text.Lower(key), "_", " ");
    WordSet(Text.Words(Text.ReplaceAll(Text.ReplaceAll(spaced, "max", ""), "iterations", "")))
  }

  /** The heuristic's test: the key and the stage share a word. */
  predicate Applies(key: string, stage: string) {
    StageWords(stage) * LimitWords(key) != {}
  }

  /** The index of the first entry whose key satisfies `p`, or `|d|` when none does. */
  function FirstKeyWhere<V>(d: Dict<V>, p: string -> bool): (k: nat)
    ensures k <= |d|
    ensures forall j :: 0 <= j < k ==> !p(d[j].0)
    ensures k < |d| ==> p(d[k].0)
    decreases |d|
  {
    if d == [] || p(d[0].0) then 0
    else
      var k := FirstKeyWhere(d[1..], p);
      assert forall j :: 1 <= j <= k ==> d[j] == d[1..][j - 1];
      1 + k
  }

  /**
    * `_find_iteration_limit`: the value of the first limit, in map order,
    * whose key shares a word with the stage name.
    */
  function FindIterationLimit(limits: Dict<int>, stage: string): (r: Option<int>)
    ensures r.None? <==> forall i :: 0 <= i < |limits| ==> !Applies(limits[i].0, stage)
    ensures r.Some? ==> exists i :: (0 <= i < |limits| && Applies(limits[i].0, stage)
      && (forall j :: 0 <= j < i ==> !Applies(limits[j].0, stage))
      && r.value == limits[i].1)
  {
    var k := FirstKeyWhere(limits, key => Applies(key, stage));
    if k < |limits| then
      assert Applies(limits[k].0, stage);
      Some(limits[k].1)
    else None
  }

  // ----- compose_prompt, section by section -----

  /**
    * The role key `compose_prompt` looks up: "" when the run has no stage
    * name, otherwise the stage's agent or "" when it has none; a stage
    * name that is not a stage is a `KeyError`.
    */
  function RoleKey(workflow: Definition, stage: string): (r: Result<string, State.MachineError>)
    ensures stage == "" ==> r == Success("")
    ensures stage != "" && !HasKey(workflow.stages, stage) ==> r == Failure(State.UnknownStage(stage))
    ensures stage != "" && HasKey(workflow.stages, stage) ==>
      var st := Get(workflow.stages, stage).value;
      r == Success(if Text.Truthy(st.agent) then st.agent.value else "")
  {
    if stage == "" then Success("")
    else
      match Get(workflow.stages, stage)
      case None => Failure(State.UnknownStage(stage))
      case Some(st) => Success(if Text.Truthy(st.agent) then st.agent.value else "")
  }

  /** "You are: …", then "Role: …" only when the role key names a role, then a blank line. */
  function HeaderSection(role: RoleSpec, roleDef: Option<RoleDef>): (r: seq<string>)
    ensures |r| >= 2 && r[0] == "You are: " + role.name && r[|r| - 1] == ""
    ensures |r| == 3 <==> roleDef.Some?
    ensures roleDef.Some? ==> r[1] == "Role: " + roleDef.value.description
    ensures roleDef.None? ==> |r| == 2
  {
    ["You are: " + role.name]
    + (if roleDef.Some? then ["Role: " + roleDef.value.description] else [])
    + [""]
  }

  /** The iteration line: "i / max" when a limit applies to the stage, "i" otherwise. */
  function IterationLine(iteration: int, maxIter: Option<int>): (r: string)
    ensures Text.StartsWith(r, "- Iteration: " + Text.IntToString(iteration))
    ensures maxIter.None? ==> r == "- Iteration: " + Text.IntToString(iteration)
    ensures maxIter.Some? ==> r == "- Iteration: " + Text.IntToString(iteration) + " / " + Text.IntToString(maxIter.value)
  {
    var head := "- Iteration: " + Text.IntToString(iteration);
    match maxIter
    case None => head
    case Some(m) =>
      var r := head + " / " + Text.IntToString(m);
      assert r[..|head|] == head;
      r
  }

  /** "## Current State": the stage, the iteration line and a blank line. */
  function StateSection(stage: string, iteration: int, maxIter: Option<int>): (r: seq<string>)
    ensures |r| == 4 && r[0] == "## Current State" && r[1] == "- Stage: " + stage && r[3] == ""
    ensures maxIter.None? ==> r[2] == "- Iteration: " + Text.IntToString(iteration)
    ensures maxIter.Some? ==> r[2] == "- Iteration: " + Text.IntToString(iteration) + " / " + Text.IntToString(maxIter.value)
  {
    ["## Current State", "- Stage: " + stage, IterationLine(iteration, maxIter), ""]
  }

  /** The four lines that show one artifact: its name, its content, a rule and a blank line. */
  function ArtifactBlock(artifact: (string, string)): seq<string> {
    ["--- " + artifact.0 + " ---", artifact.1, "---", ""]
  }

  /** One block per artifact, in order. */
  function ArtifactBlocks(artifacts: Dict<string>): (r: seq<string>)
    ensures |r| == 4 * |artifacts|
    decreases |artifacts|
  {
    if artifacts == [] then [] else ArtifactBlock(artifacts[0]) + ArtifactBlocks(artifacts[1..])
  }

  /** The lines `4 i` to `4 i + 3` show artifact `i`, so every artifact read appears, in order. */
  lemma {:induction false} ArtifactBlockAt(artifacts: Dict<string>, i: nat)
    requires i < |artifacts|
    ensures ArtifactBlocks(artifacts)[4 * i..4 * i + 4] == ArtifactBlock(artifacts[i])
    decreases i
  {
    if i > 0 {
      ArtifactBlockAt(artifacts[1..], i - 1);
      var rest := ArtifactBlocks(artifacts[1..]);
      assert ArtifactBlocks(artifacts) == ArtifactBlock(artifacts[0]) + rest;
      assert ArtifactBlocks(artifacts)[4 * i..4 * i + 4] == rest[4 * (i - 1)..4 * (i - 1) + 4];
    }
  }

  /** "## Input Files" and the blocks, only when some artifact was read. */
  function InputSection(artifacts: Dict<string>): (r: seq<string>)
    ensures r == [] <==> artifacts == []
    ensures artifacts != [] ==> r == ["## Input Files"] + ArtifactBlocks(artifacts)
  {
    if artifacts == [] then [] else ["## Input Files"] + ArtifactBlocks(artifacts)
  }

  /** The writes that are not glob patterns, in order. */
  function NonGlob(writes: seq<string>): (r: seq<string>)
    ensures forall x :: x in r <==> x in writes && '*' !in x
    ensures |r| <= |writes|
    ensures writes != [] && '*' !in writes[0] ==> r != [] && r[0] == writes[0]
    decreases |writes|
  {
    if writes == [] then []
    else if '*' in writes[0] then NonGlob(writes[1..])
    else [writes[0]] + NonGlob(writes[1..])
  }

  /** One write is kept iff it has no "*". */
  lemma NonGlobSingle(w: string)
    ensures NonGlob([w]) == if '*' in w then [] else [w]
  {
    assert [w][1..] == [];
  }

  /** The filter keeps order and repeats: filtering a concatenation concatenates the filtered parts. */
  lemma {:induction false} NonGlobAppend(a: seq<string>, b: seq<string>)
    ensures NonGlob(a + b) == NonGlob(a) + NonGlob(b)
    decreases |a|
  {
    if a == [] {
      assert a + b == b;
    } else {
      assert (a + b)[1..] == a[1..] + b;
      NonGlobAppend(a[1..], b);
    }
  }

  /**
    * The task: the first non-glob write as the output, and the others on
    * an "Additional output files" line only when there are others.
    */
  function TaskSection(writes: seq<string>): (r: seq<string>)
    ensures r == [] <==> NonGlob(writes) == []
    ensures r != [] ==> |r| >= 2 && r[0] == "## Your Task" && r[1] == "Write your output to: " + NonGlob(writes)[0]
    ensures |r| == 3 <==> |NonGlob(writes)| > 1
    ensures |r| == 3 ==> r[2] == "Additional output files: " + Text.Join(NonGlob(writes)[1..], ", ")
  {
    var ng := NonGlob(writes);
    if ng == [] then []
    else
      ["## Your Task", "Write your output to: " + ng[0]]
      + (if |ng| > 1 then ["Additional output files: " + Text.Join(ng[1..], ", ")] else [])
  }

  /** The format section, only when the role has a non-empty output format. */
  function FormatSection(role: RoleSpec): (r: seq<string>)
    ensures r == [] <==> !Text.Truthy(role.outputFormat)
    ensures r != [] ==> r == ["", "Use this format:", Text.Strip(role.outputFormat.value)]
  {
    if Text.Truthy(role.outputFormat) then ["", "Use this format:", Text.Strip(role.outputFormat.value)] else []
  }

  /** The verdict instruction, only when the role has a non-empty verdict field. */
  function VerdictSection(role: RoleSpec): (r: seq<string>)
    ensures r == [] <==> !Text.Truthy(role.verdictField)
    ensures r != [] ==> (|r| == 2 && r[0] == ""
      && Text.StartsWith(r[1], "IMPORTANT: Your output MUST include a line: ")
      && Text.Contains(r[1], "## " + role.verdictField.value + ": " + Text.Shown(role.approveValue))
      && Text.Contains(r[1], " or " + Text.Shown(role.rejectValue)))
  {
    if Text.Truthy(role.verdictField) then
      var pre := "IMPORTANT: Your output MUST include a line: ";
      var approve := "## " + role.verdictField.value + ": " + Text.Shown(role.approveValue);
      var reject := " or " + Text.Shown(role.rejectValue);
      var line := pre + approve + ("" + reject + "");
      Text.ContainsBoth(pre, approve, "", reject, "");
      assert line[..|pre|] == pre;
      ["", line]
    else []
  }

  /** Every line of the prompt, in order. */
  function PromptLines(
    role: RoleSpec, roleDef: Option<RoleDef>, stage: string, iteration: int, maxIter: Option<int>,
    artifacts: Dict<string>, writes: seq<string>): seq<string>
  {
    HeaderSection(role, roleDef)
    + [Text.Strip(role.systemPrompt), ""]
    + StateSection(stage, iteration, maxIter)
    + InputSection(artifacts)
    + TaskSection(writes)
    + FormatSection(role)
    + VerdictSection(role)
  }

  /** The files a role definition reads, or none when the role key names no role. */
  function ReadsOf(roleDef: Option<RoleDef>): seq<string> {
    if roleDef.Some? then roleDef.value.readFiles else []
  }

  /** The files a role definition writes, or none when the role key names no role. */
  function WritesOf(roleDef: Option<RoleDef>): seq<string> {
    if roleDef.Some? then roleDef.value.writeFiles else []
  }

  /** `result` is what reading `names` from `files` yields. */
  ghost predicate ReadOf(files: Artifacts.Files, names: seq<string>, maxChars: int, result: Dict<string>) {
    Artifacts.ReadSoFar(files, names, maxChars, |names|, result)
  }

  /**
    * `compose_prompt`: the prompt for the current stage, or the `KeyError`
    * of a stage name that is not a stage.  The artifacts shown are those
    * the role definition's reads name, read from `files`.
    */
  method ComposePrompt(workflow: Definition, state: State.StateDocument, role: RoleSpec, files: Artifacts.Files, maxChars: int)
    returns (r: Result<string, State.MachineError>)
    ensures RoleKey(workflow, state.stage).Failure? ==> r == Failure(RoleKey(workflow, state.stage).error)
    ensures RoleKey(workflow, state.stage).Success? ==>
      var roleDef := Get(workflow.roles, RoleKey(workflow, state.stage).value);
      exists artifacts: Dict<string> ::
        && ReadOf(files, ReadsOf(roleDef), maxChars, artifacts)
        && r == Success(Text.Join(PromptLines(
             role, roleDef, state.stage, State.CountOf(state.iterationCounts, state.stage),
             FindIterationLimit(workflow.limits, state.stage), artifacts,
             WritesOf(roleDef)), "\n"))
  {
    var key := RoleKey(workflow, state.stage);
    if key.Failure? {
      return Failure(key.error);
    }
    var roleDef := Get(workflow.roles, key.value);
    var readNames := ReadsOf(roleDef);
    var writes := WritesOf(roleDef);
    var artifacts := Artifacts.ReadArtifacts(files, readNames, maxChars);
    var stageName := state.stage;
    var parts := AssembleLines(role, roleDef, stageName, State.CountOf(state.iterationCounts, stageName),
      FindIterationLimit(workflow.limits, stageName), artifacts, writes);
    r := Success(Text.Join(parts, "\n"));
    assert ReadOf(files, readNames, maxChars, artifacts);
  }

  /** The lines of the prompt, appended section by section. */
  method AssembleLines(
    role: RoleSpec, roleDef: Option<RoleDef>, stage: string, iteration: int, maxIter: Option<int>,
    artifacts: Dict<string>, writes: seq<string>) returns (parts: seq<string>)
    ensures parts == PromptLines(role, roleDef, stage, iteration, maxIter, artifacts, writes)
  {
    parts := AppendHeader(role, roleDef);
    parts := parts + [Text.Strip(role.systemPrompt), ""];
    var stateLines := AppendState(stage, iteration, maxIter);
    parts := parts + stateLines;
    ghost var before := parts;
    if artifacts != [] {
      var blocks := AppendArtifactBlocks(artifacts);
      parts := parts + (["## Input Files"] + blocks);
    } else {
      assert before + InputSection(artifacts) == before;
    }
    parts := parts + TaskSection(writes);
    parts := parts + FormatSection(role);
    parts := parts + VerdictSection(role);
  }

  /** Who the agent is, and its role description when there is one. */
  method AppendHeader(role: RoleSpec, roleDef: Option<RoleDef>) returns (parts: seq<string>)
    ensures parts == HeaderSection(role, roleDef)
  {
    parts := ["You are: " + role.name];
    if roleDef.Some? {
      parts := parts + ["Role: " + roleDef.value.description];
    }
    parts := parts + [""];
  }

  /** The current stage and iteration. */
  method AppendState(stage: string, iteration: int, maxIter: Option<int>) returns (parts: seq<string>)
    ensures parts == StateSection(stage, iteration, maxIter)
  {
    parts := ["## Current State"];
    parts := parts + ["- Stage: " + stage];
    if maxIter.Some? {
      parts := parts + ["- Iteration: " + Text.IntToString(iteration) + " / " + Text.IntToString(maxIter.value)];
    } else {
      parts := parts + ["- Iteration: " + Text.IntToString(iteration)];
    }
    parts := parts + [""];
  }

  /** The loop over the artifacts read: four lines per file. */
  method AppendArtifactBlocks(artifacts: Dict<string>) returns (parts: seq<string>)
    ensures parts == ArtifactBlocks(artifacts)
  {
    parts := [];
    for i := 0 to |artifacts|
      invariant parts == ArtifactBlocks(artifacts[..i])
    {
      BlocksAppend(artifacts[..i], artifacts[i]);
      assert artifacts[..i + 1] == artifacts[..i] + [artifacts[i]];
      parts := parts + ["--- " + artifacts[i].0 + " ---"];
      parts := parts + [artifacts[i].1];
      parts := parts + ["---"];
      parts := parts + [""];
    }
    assert artifacts[..|artifacts|] == artifacts;
  }

  lemma {:induction false} BlocksAppend(artifacts: Dict<string>, last: (string, string))
    ensures ArtifactBlocks(artifacts + [last]) == ArtifactBlocks(artifacts) + ArtifactBlock(last)
    decreases |artifacts|
  {
    if artifacts != [] {
      assert (artifacts + [last])[1..] == artifacts[1..] + [last];
      BlocksAppend(artifacts[1..], last);
    }
  }
}
