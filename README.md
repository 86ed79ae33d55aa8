# agent-relay protocol core, modelled in Dafny

agent-relay drives a multi-agent workflow. A workflow is a graph of stages.
Each non-terminal stage names the role (agent) that runs there and where to go
next: either one fixed target, or a map from the agent's verdict to a target.
This project models the protocol engine and the text logic on top of it:

- **Workflow definitions and their validation** (`workflow.dfy`). A stage is
  terminal, or has an agent and a `next`. A definition is accepted only when:
  every agent names a role; the initial stage exists; every transition target
  exists; and every stage is reachable from the initial stage. The search for
  reachable stages is a breadth-first loop over a queue and a set, proved to
  compute reachability exactly. The checks fail at the first violation, in the
  source's order.
- **The run state and the state machine** (`state.dfy`). `StateDocument` is a
  class whose `Advance` moves to a stage and counts the entry.
  `StateMachine` answers questions about the current stage, checks iteration
  limits, resolves linear and branching transitions, and advances.
- **Verdict extraction** (`verdict.dfy`): the markdown heading search of
  `extract_verdict`. The model states the regular expression and proves that
  the search finds its first match.
- **Role specs** (`roles.dfy`): the rule that the verdict triple is all set or
  all unset.
- **Directory validation** (`validator.dfy`). A missing or broken
  workflow.yml ends validation at once. After that, the role files are checked
  one by one, and their errors accumulate.
- **Artifacts** (`artifacts.dfy`): truncation of one artifact, and reading a
  list of them (glob names skipped, missing files dropped).
- **Prompt composition** (`prompt.dfy`): the word-overlap heuristic that picks
  an iteration limit for a stage, the sections of an agent's prompt, and the
  rules that decide which sections appear.
- **The orchestrator** (`orchestrator.dfy`): the parsers for its model's
  keyed replies, the action recorded for a step, the log of notes, and the
  context blocks built from the last five notes.
- **The Cursor exporter** (`cursor_export.dfy`): the generated `.mdc` rule
  file, prompt file and `state.yml`, and the list of files an export creates,
  in order.

Shared helpers:

- `wrappers.dfy`: Option and Result.
- `dicts.dfy`: insertion-ordered dictionaries, kept as sequences of pairs
  because the code depends on their order.
- `schema.dfy`: the validation errors a document produces.
- `text.dfy`: the Python string operations the code uses (strip, split,
  splitlines, upper/lower/title, join, replace, the `{:,}` number format, and
  sorting).

The file system is a map from names to contents. The clock and the language
model's replies are parameters.

## Model

| member | source | states |
|---|---|---|
| Workflow.ValidateStage | src/relay/protocol/workflow.py:15-22 | A stage is accepted iff it is terminal with a falsy agent and a falsy `next`, or it is non-terminal with a truthy agent and a `next` that is not None. Each rejection is tied to the check that raises it, in source order. |
| Workflow.TerminalIffNoAgent | src/relay/protocol/workflow.py:16-19 | An accepted stage is terminal iff its agent is None or "". |
| Workflow.NextDoesNotDecideTerminal | src/relay/protocol/workflow.py:20-21 | A non-terminal stage whose `next` is an empty map passes, and so does a terminal stage whose `next` is "". |
| Workflow.NextTargets | src/relay/protocol/workflow.py:85-91 | An absent `next` has no targets, a string has itself, and a map has its values in order. |
| Workflow.EnqueueUnseen | src/relay/protocol/workflow.py:74-77 | Each target not yet seen is marked seen and queued once. The queue keeps its old prefix and holds no duplicates. |
| Workflow.ReachableFrom | src/relay/protocol/workflow.py:68-77 | The breadth-first search returns exactly the stages reachable from the initial stage along transitions, all of them stage keys. |
| Workflow.Outside | src/relay/protocol/workflow.py:78 | The unreachable stages are exactly the stage keys outside the reachable set. |
| Workflow.ValidateReferences | src/relay/protocol/workflow.py:43-82 | The result is no error iff every agent is a role, the initial stage is a stage, every target is a stage, and every stage is reachable. Otherwise the error is the first violation, in the source's check order. |
| Workflow.RoleDefErrors | src/relay/protocol/workflow.py:25-30 | A role definition has no field errors iff its required fields are present. |
| Workflow.RolesErrors | src/relay/protocol/workflow.py:33-40 | The roles map has no errors iff every role definition is complete. |
| Workflow.StagesErrors | src/relay/protocol/workflow.py:33-40 | There is at most one error per stage, and none iff every stage passes its own validation. |
| Workflow.FieldErrorsNoneIffComplete | src/relay/protocol/workflow.py:33-40 | A workflow document has no field errors iff all its required fields are present and valid. |
| Workflow.ToDefinition | src/relay/protocol/workflow.py:33-40 | The parsed definition keeps the document's role and stage names, in order. |
| Workflow.ParseWorkflow | src/relay/protocol/workflow.py:33-82 | Field errors are reported first and are never empty. Otherwise the document is accepted iff its definition is well formed, and a failure is that definition's first reference violation. |
| Roles.ValidateVerdictConfig | src/relay/protocol/roles.py:18-24 | Accepted iff the verdict field, approve value and reject value are all truthy or all falsy. Otherwise the error is the "must all be set or all be unset" message. |
| Roles.RoleFieldErrors | src/relay/protocol/roles.py:8-15 | There are no field errors iff `name` and `system_prompt` are present, whatever their contents. |
| Roles.ParseRole | src/relay/protocol/roles.py:8-24 | A role parses iff its required fields are present and its verdict triple is all or none. The parsed spec carries the document's fields, with omitted optional fields as None. |
| Roles.AcceptedVerdictAllOrNone | src/relay/protocol/roles.py:19-20 | Every accepted role spec has all three verdict fields truthy or all falsy. |
| Roles.EmptyCountsAsUnset | src/relay/protocol/roles.py:20 | Empty strings count as unset. An empty `system_prompt` is accepted. A verdict field with an empty approve value is rejected. |
| State.Bump | src/relay/protocol/state.py:28-29 | Entering a stage adds one to its count, with an absent count taken as 0. Every other count is left alone. |
| State.BumpTwice | src/relay/protocol/state.py:25-30 | Entering the same stage twice adds two. |
| State.BumpMonotone | src/relay/protocol/state.py:25-30 | No count ever goes down. |
| State.StateDocument.CreateInitial | src/relay/protocol/state.py:53-56 | A fresh document is at the initial stage, with empty counts, no updater, no timestamp and empty metadata. |
| State.StateDocument.Advance | src/relay/protocol/state.py:25-30 | The stage becomes the target and its count is bumped. The updater and the time are recorded. The metadata is unchanged. |
| State.LimitMessageMentions | src/relay/protocol/state.py:96-100 | The limit message names the stage and contains "count/max". |
| State.StateMachine.constructor | src/relay/protocol/state.py:62-64 | The machine holds the given definition and state document. |
| State.StateMachine.CurrentStage | src/relay/protocol/state.py:66-68 | It succeeds iff the state's stage is a key of the stages, and fails with the stage name otherwise. |
| State.StateMachine.IsTerminal | src/relay/protocol/state.py:74-76 | The current stage's `terminal` flag, failing when the current stage does. |
| State.StateMachine.IsBranching | src/relay/protocol/state.py:78-80 | True iff the current stage's `next` is a map, an empty map included. |
| State.StateMachine.GetIterationCount | src/relay/protocol/state.py:82-84 | The stored count, or 0 for a stage never entered. |
| State.StateMachine.CheckIterationLimit | src/relay/protocol/state.py:86-101 | Reached iff some limit value, under any label, is at most the current stage's count. The message reports the first such limit in map order. (False, None) otherwise, which includes having no limits. |
| State.StateMachine.ResolveLinear | src/relay/protocol/state.py:103-111 | A string `next` gives its target. Any other `next`, including a terminal stage's absent one, gives the "has branching transitions" error. |
| State.StateMachine.ResolveBranching | src/relay/protocol/state.py:113-140 | The stripped, lower-cased verdict is looked up exactly among the branch keys. On a hit the result is that branch's target. On a miss the error carries the keys sorted. A string or absent `next` gives the "has linear transitions" error. |
| State.StateMachine.Advance | src/relay/protocol/state.py:142-146 | A target that is not a stage is refused, and the state is left unchanged. Otherwise the state document advances to the target. |
| State.ResolvedTargetIsStage | src/relay/protocol/state.py:103-146 | In a well-formed workflow, every resolved transition names a stage, so advancing to it cannot be refused. |
| State.VerdictNormalised | src/relay/protocol/state.py:132-133 | Upper-casing a verdict and padding it with whitespace does not change the branch key it looks up. |
| Verdict.SearchFindsFirstMatch | src/relay/protocol/state.py:171-172 | The search returns the first line start where the heading pattern matches, with the capture where `re.search` puts it. It returns nothing iff no line start matches. |
| Verdict.MatchAtSound | src/relay/protocol/state.py:171 | A match found at a position is a match of the pattern there. |
| Verdict.MatchAtComplete | src/relay/protocol/state.py:171 | Wherever the pattern can match, the matcher finds a match. |
| Verdict.VerdictValue | src/relay/protocol/state.py:172-177 | A value is found iff the pattern matches somewhere. |
| Verdict.ExtractVerdict | src/relay/protocol/state.py:149-184 | The verdict is "approve" iff the trimmed, upper-cased captured value contains the approve value. It is "reject" iff it does not and contains the reject value. There is no verdict when no heading matches. |
| Verdict.NoHeadingNoVerdict | src/relay/protocol/state.py:171-175 | Content without a "#" yields no verdict. |
| Validator.FormatLoc | src/relay/protocol/validator.py:36 | An empty error location prints as "root". A one-part location prints as that part. |
| Validator.FormatLocSnoc | src/relay/protocol/validator.py:36 | A location with one more part prints as the shorter location, " -> ", and that part, so the parts are joined with " -> " in order. |
| Validator.WorkflowErrorLines | src/relay/protocol/validator.py:35-37 | One message per workflow schema error, in order. |
| Validator.RoleErrorLines | src/relay/protocol/validator.py:53-55 | One message per role schema error, in order, each naming the role. |
| Validator.RoleErrors | src/relay/protocol/validator.py:41-55 | A role adds no error iff its rules file exists, is a YAML mapping and parses as a valid role spec. |
| Validator.AllRoleErrors | src/relay/protocol/validator.py:41-57 | The role errors are empty iff every role in the map is sound. |
| Validator.RoleErrorsAppend | src/relay/protocol/validator.py:41-57 | Role errors accumulate: one more role appends exactly its own errors. |
| Validator.MissingRuleFileOneError | src/relay/protocol/validator.py:41-45 | A missing rules file adds exactly one error for that role, and the later roles are still checked. |
| Validator.ValidateWorkflow | src/relay/protocol/validator.py:14-57 | The result is empty iff the directory is valid. A missing workflow.yml gives exactly one error. A YAML or schema failure returns its errors with no role examined; a reference violation is the single root line carrying the message of the definition's first violation. Otherwise the result is the accumulated role errors. |
| Validator.ReportWorkflowErrors | src/relay/protocol/validator.py:34-38 | The loop emits exactly the workflow error lines. |
| Validator.CheckRoles | src/relay/protocol/validator.py:41-56 | The loop over roles emits exactly the accumulated role errors. |
| Validator.CheckRole | src/relay/protocol/validator.py:42-55 | One role's checks emit exactly that role's errors. |
| Artifacts.ReadArtifact | src/relay/protocol/artifacts.py:10-24 | A missing file reads as "". Content within the limit is returned unchanged. Longer content is `content[:max_chars]` (for a negative limit, all but the last `-max_chars` characters) followed by the marker counting `len(content) - max_chars`. |
| Artifacts.MarkerCountsDropped | src/relay/protocol/artifacts.py:23-24 | For a non-negative limit, the marker's grouped number reads back as exactly the count of dropped characters. |
| Artifacts.NegativeBudget | src/relay/protocol/artifacts.py:20-24 | For a negative limit, the read keeps all but the last `-max_chars` characters, and the marker's number reads back as the dropped count plus the content's length. |
| Artifacts.ReadArtifacts | src/relay/protocol/artifacts.py:27-40 | The keys are exactly the requested names that have no "*" and whose files exist. Each is mapped to its read, possibly truncated, content. Names keep their first-request order and are never duplicated. |
| Artifacts.ReadsDetermined | src/relay/protocol/artifacts.py:27-40 | The description of `read_artifacts`' result fixes it completely: any two dicts that meet it are equal, order included. |
| Prompt.FindIterationLimit | src/relay/prompt.py:91-99 | None iff no limit's label shares a word with the stage name. Otherwise the result is the value of the first limit, in map order, that does. |
| Prompt.RoleKey | src/relay/prompt.py:25 | An empty stage gives the key "". An unknown stage is a lookup error. Otherwise the key is the stage's agent when it is truthy, and "" when it is not. |
| Prompt.HeaderSection | src/relay/prompt.py:34-38 | "You are: name" first and a blank line last. The "Role:" line is present iff the role definition was found. |
| Prompt.IterationLine | src/relay/prompt.py:50-53 | "- Iteration: i / max" when a limit applies, and "- Iteration: i" otherwise. |
| Prompt.StateSection | src/relay/prompt.py:45-54 | Four lines: "## Current State", the "- Stage:" line naming the stage, the iteration line ("i / max" only when a limit applies) and a blank line. |
| Prompt.ArtifactBlockAt | src/relay/prompt.py:59-63 | The i-th four-line block of the input section is the i-th artifact's block. |
| Prompt.InputSection | src/relay/prompt.py:57-63 | The section is empty iff no artifact was read. Otherwise it is the heading followed by one block per artifact. |
| Prompt.NonGlob | src/relay/prompt.py:67 | Keeps exactly the writes without "*". |
| Prompt.NonGlobSingle | src/relay/prompt.py:67 | One write is kept iff it holds no "*". |
| Prompt.NonGlobAppend | src/relay/prompt.py:67 | The filter keeps order and repeats: filtering a concatenation gives the filtered parts, one after the other. |
| Prompt.TaskSection | src/relay/prompt.py:66-72 | Present iff some write is not a glob. It names the first non-glob write. The "Additional output files" line appears iff there is more than one, and lists the rest. |
| Prompt.FormatSection | src/relay/prompt.py:75-78 | Present iff `output_format` is truthy, and then holds its stripped text. |
| Prompt.VerdictSection | src/relay/prompt.py:81-86 | Present iff `verdict_field` is truthy. The instruction line then contains "## field: approve_value" and " or reject_value", with an unset value shown as "None" as the f-string prints it. |
| Prompt.ComposePrompt | src/relay/prompt.py:13-88 | An unknown stage propagates as an error. Otherwise the prompt is the lines of all sections joined by newlines. The artifacts are exactly what `read_artifacts` returns for the role's reads: readable names only, first-request order, no repeats (unique by `Artifacts.ReadsDetermined`). |
| Prompt.AssembleLines | src/relay/prompt.py:32-86 | The appends produce exactly the section lines. |
| Prompt.AppendArtifactBlocks | src/relay/prompt.py:59-63 | The loop produces exactly the artifact blocks. |
| Orchestrator.KeyValueFollowsKey | src/relay/orchestrator.py:302 | The value after the first colon of a keyed line is the stripped text after the key. |
| Orchestrator.ParseConcerns | src/relay/orchestrator.py:320 | Each concern is a non-empty stripped comma-separated piece of the value, and holds no comma. Every such piece is a concern. The concerns are the stripped pieces of the split value, filtered in order. |
| Orchestrator.StrippedPiecesSingle | src/relay/orchestrator.py:320 | One piece gives its stripped text, or nothing when that is empty. |
| Orchestrator.StrippedPiecesAppend | src/relay/orchestrator.py:320 | The comprehension keeps order and repeats: the concerns of concatenated pieces are each part's concerns, one after the other. |
| Orchestrator.ParsePreStep | src/relay/orchestrator.py:294-306 | The loop over the reply's lines computes the fold of the line rule over those lines. |
| Orchestrator.ParsePostStep | src/relay/orchestrator.py:308-325 | The loop over the reply's lines computes the fold of the line rule over those lines. |
| Orchestrator.FieldFromLastLine | src/relay/orchestrator.py:294-325 | When only lines of one kind set a field, each to a value read from that line, the field ends as the value of the last such line, or keeps its start value when there is none. |
| Orchestrator.PreLineFields | src/relay/orchestrator.py:297-303 | A pre-step line changes `proceed` only if it is a PROCEED line, and the enrichment only if it is an ENRICHMENT line. |
| Orchestrator.PostLineFields | src/relay/orchestrator.py:313-322 | A post-step line changes `aligned`, `should_rerun`, the concerns or the summary only if it carries that field's key (and, for the concerns, a value other than "none"). |
| Orchestrator.ProceedFromLastLine | src/relay/orchestrator.py:297-300 | `proceed` is decided by the last PROCEED line: true iff it contains "yes", ignoring case. It is true when there is no PROCEED line. |
| Orchestrator.EnrichmentFromLastLine | src/relay/orchestrator.py:301-303 | The enrichment is the last ENRICHMENT line's value, with "none" in any case read as "". It is "" when there is no such line. |
| Orchestrator.UnstructuredPreStep | src/relay/orchestrator.py:294-306 | A reply with no keyed line gives the defaults: proceed, with no enrichment and no reasoning. |
| Orchestrator.UnstructuredPostStep | src/relay/orchestrator.py:308-325 | A reply with no keyed line gives the defaults: aligned, with no rerun, no concerns and no summary. |
| Orchestrator.AlignedFromLastLine | src/relay/orchestrator.py:313-314 | `aligned` is decided by the last ALIGNED line, and is true when there is none. |
| Orchestrator.RerunFromLastLine | src/relay/orchestrator.py:315-316 | `should_rerun` is decided by the last RERUN line, and is false when there is none. |
| Orchestrator.ConcernsFromLastLine | src/relay/orchestrator.py:317-320 | The concerns come from the last CONCERNS line whose value is not "none". |
| Orchestrator.SummaryFromLastLine | src/relay/orchestrator.py:321-322 | The summary is the last SUMMARY line's value. |
| Orchestrator.ActionFor | src/relay/orchestrator.py:193 | "proceeded" iff aligned, "re_run" iff not aligned and rerun requested, "corrected" otherwise. It is never "overridden". |
| Orchestrator.LastFive | src/relay/orchestrator.py:220 | The last min(5, n) notes, as a suffix of the log. |
| Orchestrator.EnrichmentLines | src/relay/orchestrator.py:205-225 | The fixed five-line intent head. "Prior Steps" appears iff there are notes, and at most five note lines follow. |
| Orchestrator.ContextSummaryEmpty | src/relay/orchestrator.py:227-235 | The summary is empty iff the log is. |
| Orchestrator.Orchestrator.constructor | src/relay/orchestrator.py:73-89 | A new orchestrator holds the intent and an empty log. |
| Orchestrator.Orchestrator.PostStep | src/relay/orchestrator.py:142-203 | The reply is parsed, and exactly one note is appended with the step's action, summary and concerns. |
| Orchestrator.Orchestrator.EnrichmentForPrompt | src/relay/orchestrator.py:205-225 | The loop's text is the enrichment lines joined by newlines. |
| Orchestrator.Orchestrator.BuildContextSummary | src/relay/orchestrator.py:227-235 | The loop's text is the context summary. |
| CursorExport.Prefixed | src/relay/exporters/cursor.py:119-120 | Every read and write path gets the ".cursor/workflow/" prefix. |
| CursorExport.ReadsText | src/relay/exporters/cursor.py:93 | The Reads entry is "none" for no reads, and the joined names otherwise. |
| CursorExport.MdcFormat | src/relay/exporters/cursor.py:98-104 | The Output Format section is present iff `output_format` is truthy. |
| CursorExport.MdcVerdict | src/relay/exporters/cursor.py:106-112 | The Verdict section is present iff `verdict_field` is truthy, and names both verdict values. |
| CursorExport.GenerateMdc | src/relay/exporters/cursor.py:74-114 | The rule file is its lines joined by newlines: when no field holds a newline, splitting the file on newlines gives back exactly those lines. |
| CursorExport.MdcShape | src/relay/exporters/cursor.py:74-114 | The rule file has the 14 head lines, including the Reads line, followed by the optional sections at their positions. |
| CursorExport.PromptLines | src/relay/exporters/cursor.py:117-133 | The "Then read:" line is present iff there are reads. The last line names the prefixed writes. |
| CursorExport.GeneratePrompt | src/relay/exporters/cursor.py:117-133 | The prompt file is its lines joined by newlines: when no name or path holds a newline, splitting the file on newlines gives back exactly those lines. |
| CursorExport.LimitLines | src/relay/exporters/cursor.py:151-152 | One "key: value" line per limit, in map order. |
| CursorExport.StateLines | src/relay/exporters/cursor.py:136-154 | The fixed header with "stage: initial" on line 4, followed by the limit lines. |
| CursorExport.GenerateStateYml | src/relay/exporters/cursor.py:136-154 | The loop's text is the state lines joined by newlines. |
| CursorExport.LoadRole | src/relay/exporters/cursor.py:43-44 | A role loads iff its file is a mapping that parses as a role spec. |
| CursorExport.PresentNames | src/relay/exporters/cursor.py:38-42 | Exactly the roles whose rules file exists. |
| CursorExport.ExportsPresentRoles | src/relay/exporters/cursor.py:38-56 | A successful export covers exactly the roles with a rules file, in map order. |
| CursorExport.ExportSucceeds | src/relay/exporters/cursor.py:38-56 | The role loop succeeds iff every role with a rules file loads. |
| CursorExport.FailureStays | src/relay/exporters/cursor.py:38-56 | Once a role fails to load, no later role changes the error. |
| CursorExport.RoleFilesPaired | src/relay/exporters/cursor.py:46-56 | The k-th exported role contributes its .mdc path with its generated rules at 2k, and its .txt path with its generated prompt at 2k+1. |
| CursorExport.CreatedFiles | src/relay/exporters/cursor.py:58-71 | state.yml follows the role files. 00_context.md comes last, and only when context.md exists. |
| CursorExport.ExportRoles | src/relay/exporters/cursor.py:38-56 | The loop yields the first load failure, or the paired role files. |
| CursorExport.ExportToCursor | src/relay/exporters/cursor.py:13-71 | A failing role aborts the export with its error. Otherwise the created files are the role files, then state.yml, then the optional context file. |

## Behaviour worth noting

The model follows the code on each of these points:

- `validate_references` raises at the first violation and reports no other
  (src/relay/protocol/workflow.py:45-80).
- `check_iteration_limit` compares every limit with the current stage's count
  and never looks at the limit's label, although the comment at
  src/relay/protocol/state.py:94-95 says labels are matched to stage names.
  Only prompt composition (`_find_iteration_limit`, src/relay/prompt.py:91-99)
  matches labels to stage names.
- An empty `system_prompt` is accepted: only the verdict triple is checked
  (src/relay/protocol/roles.py:18-24). A non-terminal stage whose `next` is an
  empty map is accepted, because only `None` is refused
  (src/relay/protocol/workflow.py:20-21).
- Branch keys are looked up as written; only the verdict is stripped and
  lower-cased (src/relay/protocol/state.py:132-134).
- The verdict pattern's `\s*` can cross line breaks, so a value on the line
  after `## Verdict:` is found (src/relay/protocol/state.py:171).
- `max_artifact_chars` is passed to `read_artifact` unchecked
  (src/relay/cli.py:326, src/relay/cli.py:434), and a negative value is
  accepted (src/relay/protocol/artifacts.py:20-24). The slice then drops
  characters from the end, and the marker counts the content's length more
  characters than were dropped (`Artifacts.NegativeBudget`).
- The `.mdc` description separator is the three characters the source file
  holds (U+00E2 U+20AC U+201D, the mis-decoded bytes of an em dash),
  src/relay/exporters/cursor.py:83.

## Left out

- File reads and writes, directory creation, YAML parsing and pydantic's
  type coercion are not modelled. Documents are taken as already parsed; each
  field is present, absent or, for role and workflow files, not a mapping.
- `export_to_cursor` reads and validates workflow.yml itself. The model takes
  the already-validated definition as a parameter.
- `StateDocument.save`/`load` and the orchestrator's `_save_log`/`_load_log`
  are persistence only.
- The clock is a parameter: `last_updated_at` and a note's timestamp are
  supplied by the caller.
- The orchestrator's language-model calls (`_call_llm` and its two providers),
  the prompt texts of `pre_step`/`post_step` and `_format_artifact_summaries`
  are left out. `pre_step` returns the parse of the model's reply, which is
  `ParsePreStep`. `post_step` is modelled from the reply onwards.
- `StateMachine.current_role_name` and `ensure_artifact_dir` are not
  modelled. The first is not used by the modelled operations; the second only
  creates a directory.
- Python's Unicode case mapping is not modelled. `upper`, `lower` and `title`
  map ASCII letters only. Whitespace is exactly the set of characters
  `str.isspace` accepts.
- Text.ReplaceAll: only states that a string without the pattern is
  unchanged. It is the replacement used by the word-overlap heuristic, and its
  full behaviour is given by its definition.
- Workflow.RefError.Message: unreachable stages are listed in stage order,
  each in single quotes. The source formats a Python `set`
  (src/relay/protocol/workflow.py:78-80), whose order can change from run to
  run and whose quoting follows `repr`.
- Dictionaries are sequences of pairs, and the parsed documents do not
  enforce distinct keys. Only documents with distinct keys, as every Python
  `dict` has, are meant; with a repeated role or stage name, the model would
  visit it twice (for example, export a role twice).
- cli.py, the backends and the TUI are not part of this model.
