/**
  * The run state and the state machine (src/relay/protocol/state.py): the
  * state document records the current stage and how often each stage was
  * entered; the machine answers questions about the current stage and
  * resolves transitions against the workflow definition.
  */
module State {
  import opened Wrappers
  import opened Dicts
  import opened Workflow
  import Text

  /** A moment supplied by the caller (the source reads the clock). */
  datatype Timestamp = Timestamp(iso: string)

  /** `iteration_counts.get(s, 0)`. */
  function CountOf(counts: map<string, int>, s: string): int {
    if s in counts then counts[s] else 0
  }

  /** The counts after entering stage `s` once more. */
  function Bump(counts: map<string, int>, s: string): (r: map<string, int>)
    ensures r.Keys == counts.Keys + {s}
    ensures CountOf(r, s) == CountOf(counts, s) + 1
    ensures forall t :: t != s ==> CountOf(r, t) == CountOf(counts, t)
    ensures forall t :: t in counts && t != s ==> r[t] == counts[t]
  {
    counts[s := CountOf(counts, s) + 1]
  }

  /** Entering the same stage twice adds two, whatever it started at. */
  lemma BumpTwice(counts: map<string, int>, s: string)
    ensures CountOf(Bump(Bump(counts, s), s), s) == CountOf(counts, s) + 2
  {
  }

  /** Entering a stage leaves every count at least where it was. */
  lemma BumpMonotone(counts: map<string, int>, s: string, t: string)
    ensures CountOf(counts, t) <= CountOf(Bump(counts, s), t)
  {
  }

  /** The persisted state of one run (state.yml). */
  class StateDocument {
    var stage: string
    var iterationCounts: map<string, int>
    var lastUpdatedBy: Option<string>
    var lastUpdatedAt: Option<Timestamp>
    var metadata: map<string, string>

    /** `StateDocument.create_initial`: a fresh run positioned at `initialStage`. */
    constructor CreateInitial(initialStage: string)
      ensures stage == initialStage
      ensures iterationCounts == map[]
      ensures lastUpdatedBy == None && lastUpdatedAt == None
      ensures metadata == map[]
    {
      stage := initialStage;
      iterationCounts := map[];
      lastUpdatedBy := None;
      lastUpdatedAt := None;
      metadata := map[];
    }

    function Count(s: string): (n: int)
      reads this
      ensures s !in iterationCounts ==> n == 0
      ensures s in iterationCounts ==> n == iterationCounts[s]
    {
      CountOf(iterationCounts, s)
    }

    /**
      * `StateDocument.advance`: move to `newStage`, count the entry, and
      * record who moved and when; the metadata is left alone.
      */
    method Advance(newStage: string, role: string, now: Timestamp)
      modifies this
      ensures stage == newStage
      ensures iterationCounts == Bump(old(iterationCounts), newStage)
      ensures lastUpdatedBy == Some(role) && lastUpdatedAt == Some(now)
      ensures metadata == old(metadata)
    {
      stage := newStage;
      iterationCounts := iterationCounts[newStage := CountOf(iterationCounts, newStage) + 1];
      lastUpdatedBy := Some(role);
      lastUpdatedAt := Some(now);
    }
  }

  datatype MachineError =
    | UnknownStage(stage: string)
    | HasBranching(stage: string)
    | HasLinear(stage: string)
    | NoBranch(verdict: string, available: seq<string>)
    | UnknownTargetStage(target: string)
  {
    function Message(): string {
      match this
      case UnknownStage(s) => "'" + s + "'"
      case HasBranching(s) =>
        "Stage '" + s + "' has branching transitions. Use resolve_branching_transition() instead."
      case HasLinear(s) =>
        "Stage '" + s + "' has linear transitions. Use resolve_linear_transition() instead."
      case NoBranch(v, available) =>
        "Verdict '" + v + "' doesn't match any branch. Available branches: " + Text.Join(available, ", ")
      case UnknownTargetStage(t) => "Unknown target stage: '" + t + "'"
    }
  }

  /** The message `check_iteration_limit` reports for a limit that is reached. */
  function LimitMessage(stage: string, count: int, max: int, key: string): string {
    "Iteration limit reached for '" + stage
    + ("': " + (Text.IntToString(count) + "/" + Text.IntToString(max)) + (" (limit: " + key + ")"))
  }

  /** The message names the stage and reads "count/max". */
  lemma LimitMessageMentions(stage: string, count: int, max: int, key: string)
    ensures Text.Contains(LimitMessage(stage, count, max, key), stage)
    ensures Text.Contains(LimitMessage(stage, count, max, key), Text.IntToString(count) + "/" + Text.IntToString(max))
  {
    Text.ContainsBoth("Iteration limit reached for '", stage, "': ",
      Text.IntToString(count) + "/" + Text.IntToString(max), " (limit: " + key + ")");
  }

  /** Position of the first limit, in map order, whose value is at most `count`. */
  function FirstReached(limits: Dict<int>, count: int): (i: nat)
    ensures i <= |limits|
    ensures i < |limits| ==> limits[i].1 <= count
    ensures forall j :: 0 <= j < i ==> limits[j].1 > count
    decreases |limits|
  {
    if limits == [] then 0
    else if limits[0].1 <= count then 0
    else 1 + FirstReached(limits[1..], count)
  }

  /** The machine that drives one run: a definition and the state it advances. */
  class StateMachine {
    const workflow: Definition
    const state: StateDocument

    constructor (workflow: Definition, state: StateDocument)
      ensures this.workflow == workflow && this.state == state
    {
      this.workflow := workflow;
      this.state := state;
    }

    /** `current_stage`: the definition of the state's stage, a `KeyError` when there is none. */
    function CurrentStage(): (r: Result<Stage, MachineError>)
      reads this, state
      ensures r.Success? <==> HasKey(workflow.stages, state.stage)
      ensures r.Success? ==> Get(workflow.stages, state.stage) == Some(r.value)
      ensures r.Failure? ==> r.error == UnknownStage(state.stage)
    {
      match Get(workflow.stages, state.stage)
      case Some(st) => Success(st)
      case None => Failure(UnknownStage(state.stage))
    }

    function IsTerminal(): (r: Result<bool, MachineError>)
      reads this, state
      ensures r.Success? <==> CurrentStage().Success?
      ensures r.Success? ==> r.value == CurrentStage().value.terminal
    {
      var st :- CurrentStage();
      Success(st.terminal)
    }

    /** `is_branching`: the current stage's `next` is a map (an empty one included). */
    function IsBranching(): (r: Result<bool, MachineError>)
      reads this, state
      ensures r.Success? <==> CurrentStage().Success?
      ensures r.Success? ==> (r.value <==> CurrentStage().value.next.Branching?)
    {
      var st :- CurrentStage();
      Success(st.next.Branching?)
    }

    /** `get_iteration_count`: how often `s` was entered, 0 when never. */
    function GetIterationCount(s: string): (n: int)
      reads this, state
      ensures s !in state.iterationCounts ==> n == 0
      ensures s in state.iterationCounts ==> n == state.iterationCounts[s]
    {
      CountOf(state.iterationCounts, s)
    }

    /**
      * `check_iteration_limit`: every limit is compared with the current
      * stage's count, whatever its label, and the first one reached in
      * map order is reported.
      */
    method CheckIterationLimit() returns (reached: bool, msg: Option<string>)
      ensures reached <==> exists i :: 0 <= i < |workflow.limits| && workflow.limits[i].1 <= GetIterationCount(state.stage)
      ensures !reached ==> msg == None
      ensures reached ==>
        var count := GetIterationCount(state.stage);
        var i := FirstReached(workflow.limits, count);
        i < |workflow.limits|
        && msg == Some(LimitMessage(state.stage, count, workflow.limits[i].1, workflow.limits[i].0))
    {
      var stageName := state.stage;
      var limits := workflow.limits;
      var i := 0;
      while i < |limits|
        invariant 0 <= i <= |limits|
        invariant forall j :: 0 <= j < i ==> limits[j].1 > GetIterationCount(stageName)
        invariant FirstReached(limits, GetIterationCount(stageName)) >= i
      {
        var count := GetIterationCount(stageName);
        if count >= limits[i].1 {
          return true, Some(LimitMessage(stageName, count, limits[i].1, limits[i].0));
        }
        i := i + 1;
      }
      return false, None;
    }

    /**
      * `resolve_linear_transition`: the target of a string `next`; any
      * other `next`, an absent one on a terminal stage included, is
      * reported as branching.
      */
    function ResolveLinear(): (r: Result<string, MachineError>)
      reads this, state
      ensures CurrentStage().Failure? ==> r == Failure(CurrentStage().error)
      ensures CurrentStage().Success? ==>
        if CurrentStage().value.next.Linear? then r == Success(CurrentStage().value.next.target)
        else r == Failure(HasBranching(state.stage))
    {
      var st :- CurrentStage();
      match st.next
      case Linear(t) => Success(t)
      case _ => Failure(HasBranching(state.stage))
    }

    /**
      * `resolve_branching_transition`: the verdict, stripped and
      * lower-cased, looked up exactly among the branch keys; an unknown
      * verdict is reported with the keys in sorted order.
      */
    function ResolveBranching(verdict: string): (r: Result<string, MachineError>)
      reads this, state
      ensures CurrentStage().Failure? ==> r == Failure(CurrentStage().error)
      ensures CurrentStage().Success? && !CurrentStage().value.next.Branching? ==>
        r == Failure(HasLinear(state.stage))
      ensures CurrentStage().Success? && CurrentStage().value.next.Branching? ==>
        var branches := CurrentStage().value.next.branches;
        var key := Text.Lower(Text.Strip(verdict));
        && (r.Success? <==> HasKey(branches, key))
        && (r.Success? ==> Get(branches, key) == Some(r.value))
        && (r.Failure? ==> r.error == NoBranch(verdict, Text.SortStrings(Keys(branches))))
    {
      var st :- CurrentStage();
      match st.next
      case Branching(branches) =>
        var key := Text.Lower(Text.Strip(verdict));
        (match Get(branches, key)
         case Some(t) => Success(t)
         case None => Failure(NoBranch(verdict, Text.SortStrings(Keys(branches)))))
      case _ => Failure(HasLinear(state.stage))
    }

    /**
      * `StateMachine.advance`: a target that is not a stage is refused
      * before anything changes; otherwise the state document advances.
      */
    method Advance(target: string, role: string, now: Timestamp) returns (err: Option<MachineError>)
      modifies state
      ensures !HasKey(workflow.stages, target) ==>
        err == Some(UnknownTargetStage(target)) && unchanged(state)
      ensures HasKey(workflow.stages, target) ==>
        && err == None
        && state.stage == target
        && state.iterationCounts == Bump(old(state.iterationCounts), target)
        && state.lastUpdatedBy == Some(role) && state.lastUpdatedAt == Some(now)
        && state.metadata == old(state.metadata)
    {
      if !HasKey(workflow.stages, target) {
        return Some(UnknownTargetStage(target));
      }
      state.Advance(target, role, now);
      return None;
    }
  }

  /**
    * In a definition that passed its reference checks, every transition
    * the machine resolves leads to a stage, so advancing to it succeeds.
    */
  lemma ResolvedTargetIsStage(m: StateMachine, verdict: string)
    requires WellFormed(m.workflow)
    ensures m.ResolveLinear().Success? ==> HasKey(m.workflow.stages, m.ResolveLinear().value)
    ensures m.ResolveBranching(verdict).Success? ==> HasKey(m.workflow.stages, m.ResolveBranching(verdict).value)
  {
    var stages := m.workflow.stages;
    if m.CurrentStage().Success? {
      var i := Find(stages, m.state.stage);
      var next := stages[i].1.next;
      if m.ResolveLinear().Success? {
        assert m.ResolveLinear().value in NextTargets(next);
      }
      if m.ResolveBranching(verdict).Success? {
        var t := m.ResolveBranching(verdict).value;
        var j :| 0 <= j < |next.branches| && next.branches[j] == (Text.Lower(Text.Strip(verdict)), t);
        assert Values(next.branches)[j] == t;
      }
    }
  }

  /** Upper-casing and surrounding whitespace do not change which branch a verdict takes. */
  lemma VerdictNormalised(verdict: string, pad: string)
    requires Text.AllSpace(pad)
    ensures Text.Lower(Text.Strip(pad + Text.Upper(verdict) + pad)) == Text.Lower(Text.Strip(verdict))
  {
    var u := Text.Upper(verdict);
    var stripped := Text.Strip(verdict);
    calc {
      Text.Lower(Text.Strip(pad + u + pad));
      { Text.StripPadded(u, pad); }
      Text.Lower(Text.Strip(u));
      { Text.StripUpper(verdict); }
      Text.Lower(Text.Upper(stripped));
      { Text.LowerUpper(stripped); }
      Text.Lower(stripped);
    }
  }
}
