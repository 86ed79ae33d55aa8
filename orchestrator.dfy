/**
  * The orchestrator (src/relay/orchestrator.py): the parsers that read
  * its model's keyed replies ("PROCEED: yes", "CONCERNS: a, b", …), the
  * log of notes it keeps, one per step, and the context blocks it builds
  * from the last five of them.  The model's replies are parameters.
  */
module Orchestrator {
  import opened Wrappers
  import Text

  /** What happened at a step. */
  datatype Action = Proceeded | Corrected | ReRun | Overridden {
    function Name(): string {
      match this
      case Proceeded => "proceeded"
      case Corrected => "corrected"
      case ReRun => "re_run"
      case Overridden => "overridden"
    }
  }

  /** One entry of the context log; the timestamp is supplied by the caller. */
  datatype Note = Note(
    stage: string, role: string, action: Action, summary: string,
    concerns: seq<string>, enrichmentGiven: string, timestamp: string)

  datatype PreStepResult = PreStepResult(
    proceed: bool, promptEnrichment: string, overrideStage: Option<string>, reasoning: string)

  datatype PostStepResult = PostStepResult(
    aligned: bool, shouldRerun: bool, rerunFeedback: string, concerns: seq<string>,
    summary: string, overrideVerdict: Option<string>, reasoning: string)

  const DefaultPreStep := PreStepResult(true, "", None, "")

  const DefaultPostStep := PostStepResult(true, false, "", [], "", None, "")

  // ----- reading one keyed line -----

  /** The lines of a reply: the reply stripped, then split into lines. */
  function ResponseLines(response: string): seq<string> {
    Text.SplitLines(Text.Strip(response))
  }

  /** A line (after stripping) whose upper-cased form starts with `key`. */
  predicate IsKeyLine(raw: string, key: string) {
    Text.StartsWith(Text.Upper(Text.Strip(raw)), key)
  }

  /** A key line holds the key's colon, so splitting it at ':' has a second part. */
  lemma KeyColon(line: string, key: string)
    requires key != [] && key[|key| - 1] == ':' && Text.StartsWith(Text.Upper(line), key)
    ensures ':' in line
  {
    var k := |key| - 1;
    assert Text.Upper(line)[k] == key[k];
    assert line[k] in line;
  }

  /** `line.split(":", 1)[1].strip()`: what follows the first colon, stripped. */
  function SplitValue(line: string): string
    requires ':' in line
  {
    Text.Strip(line[Text.IndexOfChar(line, ':') + 1..])
  }

  /** The value of a key line is exactly the text after the key, since no key has an earlier colon. */
  lemma KeyValueFollowsKey(line: string, key: string)
    requires key != [] && key[|key| - 1] == ':' && ':' !in key[..|key| - 1]
    requires Text.StartsWith(Text.Upper(line), key)
    ensures ':' in line && SplitValue(line) == Text.Strip(line[|key|..])
  {
    var k := |key| - 1;
    assert Text.Upper(line)[k] == ':';
    assert line[k] == ':';
    forall j | 0 <= j < k
      ensures line[j] != ':'
    {
      assert Text.Upper(line)[j] == key[j];
      assert key[j] in key[..k];
    }
    var i := Text.IndexOfChar(line, ':');
    assert i == k;
  }

  /** The stripped line's value, for a line known to be a `key` line. */
  function KeyValue(raw: string, key: string): string
    requires key != [] && key[|key| - 1] == ':' && IsKeyLine(raw, key)
  {
    KeyColon(Text.Strip(raw), key);
    SplitValue(Text.Strip(raw))
  }

  /** `"yes" in line.lower()`: the whole stripped line is searched, key included. */
  predicate SaysYes(raw: string) {
    Text.Contains(Text.Lower(Text.Strip(raw)), "yes")
  }

  /** `[c.strip() for c in val.split(",") if c.strip()]`. */
  function ParseConcerns(value: string): (r: seq<string>)
    ensures forall x :: x in r <==> x != "" && exists c :: c in Text.SplitOn(value, ',') && Text.Strip(c) == x
    ensures forall k :: 0 <= k < |r| ==> r[k] != "" && ',' !in r[k]
    ensures r == StrippedPieces(Text.SplitOn(value, ','))
  {
    var pieces := Text.SplitOn(value, ',');
    StrippedKeepsOut(pieces, ',');
    StrippedPieces(pieces)
  }

  /** The non-empty stripped pieces, in order. */
  function StrippedPieces(pieces: seq<string>): (r: seq<string>)
    ensures forall x :: x in r <==> x != "" && exists c :: c in pieces && Text.Strip(c) == x
    decreases |pieces|
  {
    if pieces == [] then []
    else
      var rest := StrippedPieces(pieces[1..]);
      var s := Text.Strip(pieces[0]);
      assert forall c :: c in pieces <==> c == pieces[0] || c in pieces[1..];
      if s != "" then [s] + rest else rest
  }

  /** One piece gives its stripped text, or nothing when that is empty. */
  lemma StrippedPiecesSingle(c: string)
    ensures StrippedPieces([c]) == if Text.Strip(c) == "" then [] else [Text.Strip(c)]
  {
    assert [c][1..] == [];
  }

  /**
    * The comprehension keeps order and repeats: the pieces of a
    * concatenation are the pieces of each part, one after the other.
    */
  lemma {:induction false} StrippedPiecesAppend(a: seq<string>, b: seq<string>)
    ensures StrippedPieces(a + b) == StrippedPieces(a) + StrippedPieces(b)
    decreases |a|
  {
    if a == [] {
      assert a + b == b;
    } else {
      assert (a + b)[1..] == a[1..] + b;
      StrippedPiecesAppend(a[1..], b);
    }
  }

  /** A character no piece holds is in no stripped piece either. */
  lemma StrippedKeepsOut(pieces: seq<string>, ch: char)
    requires forall k :: 0 <= k < |pieces| ==> ch !in pieces[k]
    ensures forall k :: 0 <= k < |StrippedPieces(pieces)| ==>
      StrippedPieces(pieces)[k] != "" && ch !in StrippedPieces(pieces)[k]
  {
    var r := StrippedPieces(pieces);
    forall k | 0 <= k < |r| ensures r[k] != "" && ch !in r[k] {
      assert r[k] in r;
      var c :| c in pieces && Text.Strip(c) == r[k];
      StripInside(c);
    }
  }

  /** Stripping keeps only characters of the original. */
  lemma StripInside(s: string)
    ensures forall ch :: ch in Text.Strip(s) ==> ch in s
  {
    if !Text.AllSpace(s) {
      var i, j := Text.StripBounds(s);
      assert forall ch :: ch in s[i..j] ==> ch in s;
    }
  }

  // ----- replies read line by line -----

  /** `init`, updated by every line in order with `step`. */
  function Fold<R>(step: (R, string) -> R, init: R, lines: seq<string>): R
    decreases |lines|
  {
    if lines == [] then init
    else step(Fold(step, init, lines[..|lines| - 1]), lines[|lines| - 1])
  }

  lemma FoldSnoc<R>(step: (R, string) -> R, init: R, lines: seq<string>, i: nat)
    requires i < |lines|
    ensures Fold(step, init, lines[..i + 1]) == step(Fold(step, init, lines[..i]), lines[i])
  {
    assert lines[..i + 1][..i] == lines[..i];
  }

  /** The index of the last line satisfying `p`, if any. */
  function LastWhere(lines: seq<string>, p: string -> bool): (r: Option<nat>)
    ensures r.Some? ==> (r.value < |lines| && p(lines[r.value])
      && forall j :: r.value < j < |lines| ==> !p(lines[j]))
    ensures r.None? ==> forall j :: 0 <= j < |lines| ==> !p(lines[j])
    decreases |lines|
  {
    if lines == [] then None
    else if p(lines[|lines| - 1]) then Some(|lines| - 1)
    else
      var r := LastWhere(lines[..|lines| - 1], p);
      assert forall j :: 0 <= j < |lines| - 1 ==> lines[..|lines| - 1][j] == lines[j];
      r
  }

  /**
    * A field that only lines satisfying `p` set, each to `v` of that line,
    * ends up as `v` of the last such line, or as it started when there is none.
    */
  lemma {:induction false} FieldFromLastLine<R, V>(
    step: (R, string) -> R, init: R, lines: seq<string>,
    field: R -> V, p: string -> bool, v: string -> V)
    requires forall r, raw :: field(step(r, raw)) == if p(raw) then v(raw) else field(r)
    ensures field(Fold(step, init, lines)) ==
      match LastWhere(lines, p)
      case None => field(init)
      case Some(i) => v(lines[i])
    decreases |lines|
  {
    if lines != [] {
      var front := lines[..|lines| - 1];
      FieldFromLastLine(step, init, front, field, p, v);
      if !p(lines[|lines| - 1]) {
        assert LastWhere(lines, p) == LastWhere(front, p);
        assert forall j :: 0 <= j < |front| ==> front[j] == lines[j];
      }
    }
  }

  /** Lines that `step` ignores leave the start value as it is. */
  lemma {:induction false} FoldIgnores<R>(step: (R, string) -> R, init: R, lines: seq<string>)
    requires forall k, r :: 0 <= k < |lines| ==> step(r, lines[k]) == r
    ensures Fold(step, init, lines) == init
    decreases |lines|
  {
    if lines != [] {
      var front := lines[..|lines| - 1];
      assert forall k :: 0 <= k < |front| ==> front[k] == lines[k];
      FoldIgnores(step, init, front);
    }
  }

  /** Distinct keys never both prefix one upper-cased line. */
  lemma KeysExclusive(raw: string, a: string, b: string)
    requires a != [] && b != [] && a[0] != b[0]
    ensures !(IsKeyLine(raw, a) && IsKeyLine(raw, b))
  {
  }

  // ----- _parse_pre_step -----

  predicate ProceedLine(raw: string) { IsKeyLine(raw, "PROCEED:") }

  predicate EnrichmentLine(raw: string) { IsKeyLine(raw, "ENRICHMENT:") }

  /** An ENRICHMENT line's value, with "none" (in any case) read as no enrichment. */
  function EnrichmentValue(raw: string): string {
    if EnrichmentLine(raw) then
      var v := KeyValue(raw, "ENRICHMENT:");
      if Text.Lower(v) == "none" then "" else v
    else ""
  }

  /** One line of a pre-step reply, applied to the result so far; later lines overwrite earlier ones. */
  function ApplyPreLine(r: PreStepResult, raw: string): PreStepResult {
    if ProceedLine(raw) then
      r.(proceed := SaysYes(raw))
    else if EnrichmentLine(raw) then
      r.(promptEnrichment := EnrichmentValue(raw))
    else if IsKeyLine(raw, "REASONING:") then
      r.(reasoning := KeyValue(raw, "REASONING:"))
    else r
  }

  /** The defaults, updated by every line in order. */
  function PreStepOf(lines: seq<string>): PreStepResult {
    Fold(ApplyPreLine, DefaultPreStep, lines)
  }

  /** `_parse_pre_step`. */
  method ParsePreStep(response: string) returns (result: PreStepResult)
    ensures result == PreStepOf(ResponseLines(response))
  {
    var lines := ResponseLines(response);
    result := DefaultPreStep;
    for i := 0 to |lines|
      invariant result == PreStepOf(lines[..i])
    {
      ghost var before := result;
      FoldSnoc(ApplyPreLine, DefaultPreStep, lines, i);
      var line := Text.Strip(lines[i]);
      var upper := Text.Upper(line);
      if Text.StartsWith(upper, "PROCEED:") {
        result := result.(proceed := Text.Contains(Text.Lower(line), "yes"));
      } else if Text.StartsWith(upper, "ENRICHMENT:") {
        KeyColon(line, "ENRICHMENT:");
        var val := SplitValue(line);
        result := result.(promptEnrichment := if Text.Lower(val) == "none" then "" else val);
      } else if Text.StartsWith(upper, "REASONING:") {
        KeyColon(line, "REASONING:");
        result := result.(reasoning := SplitValue(line));
      }
      assert result == ApplyPreLine(before, lines[i]);
    }
    assert lines[..|lines|] == lines;
  }

  /** Each pre-step field changes only on its own key's lines. */
  lemma PreLineFields(r: PreStepResult, raw: string)
    ensures ApplyPreLine(r, raw).proceed == if ProceedLine(raw) then SaysYes(raw) else r.proceed
    ensures ApplyPreLine(r, raw).promptEnrichment ==
      if EnrichmentLine(raw) then EnrichmentValue(raw) else r.promptEnrichment
  {
    KeysExclusive(raw, "PROCEED:", "ENRICHMENT:");
  }

  /** PROCEED is true unless the last PROCEED line lacks "yes"; with no such line it keeps the default. */
  lemma ProceedFromLastLine(lines: seq<string>)
    ensures PreStepOf(lines).proceed ==
      match LastWhere(lines, ProceedLine)
      case None => true
      case Some(i) => SaysYes(lines[i])
  {
    forall r, raw ensures ApplyPreLine(r, raw).proceed == if ProceedLine(raw) then SaysYes(raw) else r.proceed {
      PreLineFields(r, raw);
    }
    FieldFromLastLine(ApplyPreLine, DefaultPreStep, lines, (r: PreStepResult) => r.proceed, ProceedLine, SaysYes);
  }

  /** The enrichment is the last ENRICHMENT line's value, "" when that value is "none" or there is no such line. */
  lemma EnrichmentFromLastLine(lines: seq<string>)
    ensures PreStepOf(lines).promptEnrichment ==
      match LastWhere(lines, EnrichmentLine)
      case None => ""
      case Some(i) => EnrichmentValue(lines[i])
  {
    forall r, raw ensures ApplyPreLine(r, raw).promptEnrichment ==
      if EnrichmentLine(raw) then EnrichmentValue(raw) else r.promptEnrichment
    {
      PreLineFields(r, raw);
    }
    FieldFromLastLine(ApplyPreLine, DefaultPreStep, lines,
      (r: PreStepResult) => r.promptEnrichment, EnrichmentLine, EnrichmentValue);
  }

  /** Unstructured replies leave every pre-step default in place. */
  lemma UnstructuredPreStep(lines: seq<string>)
    requires forall k :: 0 <= k < |lines| ==>
      !ProceedLine(lines[k]) && !EnrichmentLine(lines[k]) && !IsKeyLine(lines[k], "REASONING:")
    ensures PreStepOf(lines) == DefaultPreStep
  {
    FoldIgnores(ApplyPreLine, DefaultPreStep, lines);
  }

  // ----- _parse_post_step -----

  predicate AlignedLine(raw: string) { IsKeyLine(raw, "ALIGNED:") }

  predicate RerunLine(raw: string) { IsKeyLine(raw, "RERUN:") }

  predicate SummaryLine(raw: string) { IsKeyLine(raw, "SUMMARY:") }

  /** A CONCERNS line whose value is "none", in any case, leaves the concerns as they were. */
  predicate SetsConcerns(raw: string) {
    IsKeyLine(raw, "CONCERNS:") && Text.Lower(KeyValue(raw, "CONCERNS:")) != "none"
  }

  /** The concerns a CONCERNS line lists. */
  function ConcernsValue(raw: string): seq<string> {
    if IsKeyLine(raw, "CONCERNS:") then ParseConcerns(KeyValue(raw, "CONCERNS:")) else []
  }

  function SummaryValue(raw: string): string {
    if SummaryLine(raw) then KeyValue(raw, "SUMMARY:") else ""
  }

  /** One line of a post-step reply, applied to the result so far. */
  function ApplyPostLine(r: PostStepResult, raw: string): PostStepResult {
    if AlignedLine(raw) then
      r.(aligned := SaysYes(raw))
    else if RerunLine(raw) then
      r.(shouldRerun := SaysYes(raw))
    else if IsKeyLine(raw, "CONCERNS:") then
      if SetsConcerns(raw) then r.(concerns := ConcernsValue(raw)) else r
    else if SummaryLine(raw) then
      r.(summary := SummaryValue(raw))
    else if IsKeyLine(raw, "REASONING:") then
      r.(reasoning := KeyValue(raw, "REASONING:"))
    else r
  }

  function PostStepOf(lines: seq<string>): PostStepResult {
    Fold(ApplyPostLine, DefaultPostStep, lines)
  }

  /** `_parse_post_step`. */
  method ParsePostStep(response: string) returns (result: PostStepResult)
    ensures result == PostStepOf(ResponseLines(response))
  {
    var lines := ResponseLines(response);
    result := DefaultPostStep;
    for i := 0 to |lines|
      invariant result == PostStepOf(lines[..i])
    {
      ghost var before := result;
      FoldSnoc(ApplyPostLine, DefaultPostStep, lines, i);
      var line := Text.Strip(lines[i]);
      var upper := Text.Upper(line);
      if Text.StartsWith(upper, "ALIGNED:") {
        result := result.(aligned := Text.Contains(Text.Lower(line), "yes"));
      } else if Text.StartsWith(upper, "RERUN:") {
        result := result.(shouldRerun := Text.Contains(Text.Lower(line), "yes"));
      } else if Text.StartsWith(upper, "CONCERNS:") {
        KeyColon(line, "CONCERNS:");
        var val := SplitValue(line);
        if Text.Lower(val) != "none" {
          result := result.(concerns := ParseConcerns(val));
        }
      } else if Text.StartsWith(upper, "SUMMARY:") {
        KeyColon(line, "SUMMARY:");
        result := result.(summary := SplitValue(line));
      } else if Text.StartsWith(upper, "REASONING:") {
        KeyColon(line, "REASONING:");
        result := result.(reasoning := SplitValue(line));
      }
      assert result == ApplyPostLine(before, lines[i]);
    }
    assert lines[..|lines|] == lines;
  }

  /** Unstructured replies leave every post-step default in place: aligned, no re-run, no concerns. */
  lemma UnstructuredPostStep(lines: seq<string>)
    requires forall k :: 0 <= k < |lines| ==>
      !AlignedLine(lines[k]) && !RerunLine(lines[k]) && !IsKeyLine(lines[k], "CONCERNS:")
      && !SummaryLine(lines[k]) && !IsKeyLine(lines[k], "REASONING:")
    ensures PostStepOf(lines) == DefaultPostStep
  {
    FoldIgnores(ApplyPostLine, DefaultPostStep, lines);
  }

  /** Each post-step field changes only on its own key's lines. */
  lemma PostLineFields(r: PostStepResult, raw: string)
    ensures ApplyPostLine(r, raw).aligned == if AlignedLine(raw) then SaysYes(raw) else r.aligned
    ensures ApplyPostLine(r, raw).shouldRerun == if RerunLine(raw) then SaysYes(raw) else r.shouldRerun
    ensures ApplyPostLine(r, raw).concerns == if SetsConcerns(raw) then ConcernsValue(raw) else r.concerns
    ensures ApplyPostLine(r, raw).summary == if SummaryLine(raw) then SummaryValue(raw) else r.summary
  {
    KeysExclusive(raw, "ALIGNED:", "RERUN:");
    KeysExclusive(raw, "ALIGNED:", "CONCERNS:");
    KeysExclusive(raw, "RERUN:", "CONCERNS:");
    KeysExclusive(raw, "ALIGNED:", "SUMMARY:");
    KeysExclusive(raw, "RERUN:", "SUMMARY:");
    KeysExclusive(raw, "CONCERNS:", "SUMMARY:");
  }

  /** ALIGNED is decided by the last ALIGNED line, and is true when there is none. */
  lemma AlignedFromLastLine(lines: seq<string>)
    ensures PostStepOf(lines).aligned ==
      match LastWhere(lines, AlignedLine)
      case None => true
      case Some(i) => SaysYes(lines[i])
  {
    forall r, raw ensures ApplyPostLine(r, raw).aligned == if AlignedLine(raw) then SaysYes(raw) else r.aligned {
      PostLineFields(r, raw);
    }
    FieldFromLastLine(ApplyPostLine, DefaultPostStep, lines, (r: PostStepResult) => r.aligned, AlignedLine, SaysYes);
  }

  /** RERUN is decided by the last RERUN line, and is false when there is none. */
  lemma RerunFromLastLine(lines: seq<string>)
    ensures PostStepOf(lines).shouldRerun ==
      match LastWhere(lines, RerunLine)
      case None => false
      case Some(i) => SaysYes(lines[i])
  {
    forall r, raw ensures ApplyPostLine(r, raw).shouldRerun ==
      if RerunLine(raw) then SaysYes(raw) else r.shouldRerun
    {
      PostLineFields(r, raw);
    }
    FieldFromLastLine(ApplyPostLine, DefaultPostStep, lines,
      (r: PostStepResult) => r.shouldRerun, RerunLine, SaysYes);
  }

  /** The concerns come from the last CONCERNS line that is not "none"; with none such they stay empty. */
  lemma ConcernsFromLastLine(lines: seq<string>)
    ensures PostStepOf(lines).concerns ==
      match LastWhere(lines, SetsConcerns)
      case None => []
      case Some(i) => ConcernsValue(lines[i])
  {
    forall r, raw ensures ApplyPostLine(r, raw).concerns ==
      if SetsConcerns(raw) then ConcernsValue(raw) else r.concerns
    {
      PostLineFields(r, raw);
    }
    FieldFromLastLine(ApplyPostLine, DefaultPostStep, lines,
      (r: PostStepResult) => r.concerns, SetsConcerns, ConcernsValue);
  }

  /** The summary is the last SUMMARY line's value, "" when there is none. */
  lemma SummaryFromLastLine(lines: seq<string>)
    ensures PostStepOf(lines).summary ==
      match LastWhere(lines, SummaryLine)
      case None => ""
      case Some(i) => SummaryValue(lines[i])
  {
    forall r, raw ensures ApplyPostLine(r, raw).summary ==
      if SummaryLine(raw) then SummaryValue(raw) else r.summary
    {
      PostLineFields(r, raw);
    }
    FieldFromLastLine(ApplyPostLine, DefaultPostStep, lines,
      (r: PostStepResult) => r.summary, SummaryLine, SummaryValue);
  }

  // ----- post_step and the note log -----

  /** The action recorded for a step's evaluation. */
  function ActionFor(r: PostStepResult): (a: Action)
    ensures a == Proceeded <==> r.aligned
    ensures a == ReRun <==> !r.aligned && r.shouldRerun
    ensures a == Corrected <==> !r.aligned && !r.shouldRerun
    ensures a != Overridden
  {
    if r.aligned then Proceeded else if r.shouldRerun then ReRun else Corrected
  }

  /** The notes the context blocks show: the last five, or all when there are fewer. */
  function LastFive(notes: seq<Note>): (r: seq<Note>)
    ensures |r| == if |notes| < 5 then |notes| else 5
    ensures r == notes[|notes| - |r|..]
  {
    if |notes| <= 5 then notes else notes[|notes| - 5..]
  }

  /** A note as the prompt enrichment lists it. */
  function EnrichmentNoteLine(n: Note): string {
    "- [" + n.role + "] " + n.summary
    + (if n.concerns != [] then " | Concerns: " + Text.Join(n.concerns, ", ") else "")
  }

  /** A note as the orchestrator's own context summary lists it. */
  function SummaryNoteLine(n: Note): string {
    "- " + n.role + " [" + n.action.Name() + "]: " + n.summary
    + (if n.concerns != [] then " (concerns: " + Text.Join(n.concerns, ", ") + ")" else "")
  }

  function EnrichmentNoteLines(notes: seq<Note>): (r: seq<string>)
    ensures |r| == |notes|
    ensures forall k :: 0 <= k < |notes| ==> r[k] == EnrichmentNoteLine(notes[k])
  {
    seq(|notes|, k requires 0 <= k < |notes| => EnrichmentNoteLine(notes[k]))
  }

  function SummaryNoteLines(notes: seq<Note>): (r: seq<string>)
    ensures |r| == |notes|
    ensures forall k :: 0 <= k < |notes| ==> r[k] == SummaryNoteLine(notes[k])
  {
    seq(|notes|, k requires 0 <= k < |notes| => SummaryNoteLine(notes[k]))
  }

  lemma EnrichmentNoteLinesSnoc(notes: seq<Note>, i: nat)
    requires i < |notes|
    ensures EnrichmentNoteLines(notes[..i + 1]) == EnrichmentNoteLines(notes[..i]) + [EnrichmentNoteLine(notes[i])]
  {
    assert notes[..i + 1][..i] == notes[..i];
  }

  lemma SummaryNoteLinesSnoc(notes: seq<Note>, i: nat)
    requires i < |notes|
    ensures SummaryNoteLines(notes[..i + 1]) == SummaryNoteLines(notes[..i]) + [SummaryNoteLine(notes[i])]
  {
    assert notes[..i + 1][..i] == notes[..i];
  }

  /** The lines of the context block injected into agent prompts. */
  function EnrichmentLines(intent: string, notes: seq<Note>): (r: seq<string>)
    ensures |r| >= 5 && r[..5] == ["## Orchestrator Context", "", "### Intent", intent, ""]
    ensures |r| == 5 <==> notes == []
    ensures notes != [] ==> (r[5] == "### Prior Steps" && r[|r| - 1] == ""
      && r[6..|r| - 1] == EnrichmentNoteLines(LastFive(notes))
      && |r| <= 12)
  {
    var head := ["## Orchestrator Context", "", "### Intent", intent, ""];
    if notes == [] then head
    else
      var listed := EnrichmentNoteLines(LastFive(notes));
      var tail := ["### Prior Steps"] + listed + [""];
      var r := head + tail;
      assert |r| == 7 + |listed| && |listed| <= 5;
      assert r[..5] == head && r[5..] == tail;
      assert tail[1..|tail| - 1] == listed;
      r
  }

  /** The context summary: "" with no notes, otherwise one line per note of the last five. */
  function ContextSummary(notes: seq<Note>): string {
    if notes == [] then "" else Text.Join(SummaryNoteLines(LastFive(notes)), "\n")
  }

  /** The summary is empty exactly when no step has been recorded. */
  lemma ContextSummaryEmpty(notes: seq<Note>)
    ensures ContextSummary(notes) == "" <==> notes == []
  {
    if notes != [] {
      var lines := SummaryNoteLines(LastFive(notes));
      assert lines[0][0] == '-';
      Text.JoinLonger(lines, "\n");
    }
  }

  /**
    * The orchestrator: the intent it holds and its log of notes, which
    * `PostStep` extends by one note per evaluated step.
    */
  class Orchestrator {
    const intent: string
    var notes: seq<Note>

    constructor(intent: string)
      ensures this.intent == intent && notes == []
    {
      this.intent := intent;
      notes := [];
    }

    /**
      * `post_step` once the model has replied: the reply parsed, and a
      * note recording the step's action, summary and concerns appended.
      */
    method PostStep(stage: string, role: string, response: string, timestamp: string) returns (result: PostStepResult)
      modifies this
      ensures result == PostStepOf(ResponseLines(response))
      ensures notes == old(notes) + [Note(stage, role, ActionFor(result), result.summary, result.concerns, "", timestamp)]
    {
      result := ParsePostStep(response);
      var action := if result.aligned then Proceeded else if result.shouldRerun then ReRun else Corrected;
      notes := notes + [Note(stage, role, action, result.summary, result.concerns, "", timestamp)];
    }

    /** `get_enrichment_for_prompt`. */
    method EnrichmentForPrompt() returns (s: string)
      ensures s == Text.Join(EnrichmentLines(intent, notes), "\n")
    {
      var parts := ["## Orchestrator Context", "", "### Intent", intent, ""];
      if notes != [] {
        parts := parts + ["### Prior Steps"];
        var recent := LastFive(notes);
        ghost var start := parts;
        for i := 0 to |recent|
          invariant parts == start + EnrichmentNoteLines(recent[..i])
        {
          var note := recent[i];
          var concernText := if note.concerns != [] then " | Concerns: " + Text.Join(note.concerns, ", ") else "";
          var line := "- [" + note.role + "] " + note.summary + concernText;
          EnrichmentNoteLinesSnoc(recent, i);
          assert line == EnrichmentNoteLine(note);
          parts := parts + [line];
        }
        assert recent[..|recent|] == recent;
        parts := parts + [""];
        assert parts == ["## Orchestrator Context", "", "### Intent", intent, ""]
          + (["### Prior Steps"] + EnrichmentNoteLines(recent) + [""]);
        assert parts == EnrichmentLines(intent, notes);
      }
      s := Text.Join(parts, "\n");
    }

    /** `_build_context_summary`. */
    method BuildContextSummary() returns (s: string)
      ensures s == ContextSummary(notes)
    {
      if notes == [] {
        return "";
      }
      var lines := [];
      var recent := LastFive(notes);
      for i := 0 to |recent|
        invariant lines == SummaryNoteLines(recent[..i])
      {
        var note := recent[i];
        var concernText := if note.concerns != [] then " (concerns: " + Text.Join(note.concerns, ", ") + ")" else "";
        var line := "- " + note.role + " [" + note.action.Name() + "]: " + note.summary + concernText;
        SummaryNoteLinesSnoc(recent, i);
        assert line == SummaryNoteLine(note);
        lines := lines + [line];
      }
      assert recent[..|recent|] == recent;
      s := Text.Join(lines, "\n");
    }
  }
}
