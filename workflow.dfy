/**
  * The workflow definition (src/relay/protocol/workflow.py): roles, stages
  * and the transition graph between stages, and the checks a definition
  * passes before it can be used: each stage on its own, then the role
  * references, the initial stage, the transition targets and reachability,
  * stopping at the first violation.
  */
module Workflow {
  import opened Wrappers
  import opened Dicts
  import opened Schema
  import Text

  /** A stage's `next`: absent, one target (linear), or one target per verdict (branching). */
  datatype Next = NoNext | Linear(target: string) | Branching(branches: Dict<string>)

  datatype Stage = Stage(agent: Option<string>, next: Next, terminal: bool)

  datatype RoleDef = RoleDef(description: string, writeFiles: seq<string>, readFiles: seq<string>, rules: string)

  datatype Definition = Definition(
    name: string,
    version: int,
    roles: Dict<RoleDef>,
    stages: Dict<Stage>,
    initialStage: string,
    limits: Dict<int>)

  /** Python truthiness of `next`: "" and {} count as absent. */
  predicate NextTruthy(n: Next) {
    match n
    case NoNext => false
    case Linear(t) => t != ""
    case Branching(m) => m != []
  }

  // ----- StageDefinition.validate_stage -----

  datatype StageError = TerminalWithAgentOrNext | NoAgent | NoNextField {
    function Message(): string {
      match this
      case TerminalWithAgentOrNext => "Terminal stages cannot have 'agent' or 'next'"
      case NoAgent => "Non-terminal stages must have an 'agent'"
      case NoNextField => "Non-terminal stages must have 'next'"
    }
  }

  /**
    * The checks on one stage, in the source's order.  Only `next` being
    * absent fails a non-terminal stage: an empty branching map passes.
    */
  function ValidateStage(s: Stage): (r: Option<StageError>)
    ensures r.None? <==>
      if s.terminal then !Text.Truthy(s.agent) && !NextTruthy(s.next)
      else Text.Truthy(s.agent) && !s.next.NoNext?
    ensures r == Some(TerminalWithAgentOrNext) <==> s.terminal && (Text.Truthy(s.agent) || NextTruthy(s.next))
    ensures r == Some(NoAgent) <==> !s.terminal && !Text.Truthy(s.agent)
  {
    if s.terminal && (Text.Truthy(s.agent) || NextTruthy(s.next)) then Some(TerminalWithAgentOrNext)
    else if !s.terminal && !Text.Truthy(s.agent) then Some(NoAgent)
    else if !s.terminal && s.next.NoNext? then Some(NoNextField)
    else None
  }

  /** On an accepted stage, being terminal and having no agent are the same thing. */
  lemma TerminalIffNoAgent(s: Stage)
    requires ValidateStage(s).None?
    ensures s.terminal <==> !Text.Truthy(s.agent)
  {
  }

  /**
    * The agent side of that equivalence has no counterpart for `next`: a
    * non-terminal stage whose branching map is empty is accepted although
    * its `next` is falsy, and a terminal stage may carry `next: ""`.
    */
  lemma NextDoesNotDecideTerminal()
    ensures ValidateStage(Stage(Some("planner"), Branching([]), false)).None?
    ensures ValidateStage(Stage(None, Linear(""), true)).None?
  {
  }

  // ----- _get_next_targets -----

  /** The stages a `next` field can lead to, in the source's order. */
  function NextTargets(n: Next): (r: seq<string>)
    ensures n.NoNext? ==> r == []
    ensures n.Linear? ==> r == [n.target]
    ensures n.Branching? ==> r == Values(n.branches)
  {
    match n
    case NoNext => []
    case Linear(t) => [t]
    case Branching(m) => Values(m)
  }

  /** Where the stage named `s` leads (`self.stages[s]` takes the first entry with that key). */
  function Successors(stages: Dict<Stage>, s: string): seq<string> {
    match Get(stages, s)
    case Some(st) => NextTargets(st.next)
    case None => []
  }

  // ----- reachability -----

  /** There is a transition from stage `s` to stage `t`. */
  ghost predicate Edge(stages: Dict<Stage>, s: string, t: string) {
    t in Successors(stages, s)
  }

  ghost predicate IsPath(stages: Dict<Stage>, p: seq<string>) {
    |p| > 0 && forall i :: 0 <= i < |p| - 1 ==> Edge(stages, p[i], p[i + 1])
  }

  /** `s` can be reached from `from` by following transitions. */
  ghost predicate Reachable(stages: Dict<Stage>, from: string, s: string) {
    exists p :: IsPath(stages, p) && p[0] == from && p[|p| - 1] == s
  }

  /** Every target named by any stage entry is a stage. */
  predicate TargetsKnown(stages: Dict<Stage>) {
    forall i, t :: 0 <= i < |stages| && t in NextTargets(stages[i].1.next) ==> HasKey(stages, t)
  }

  lemma SuccessorsKnown(stages: Dict<Stage>, s: string, t: string)
    requires TargetsKnown(stages)
    requires t in Successors(stages, s)
    ensures t in KeySet(stages)
  {
    var i := Find(stages, s);
    assert HasKey(stages, t);
    var j := Find(stages, t);
    assert stages[j].0 == t;
  }

  /** A set that holds `from` and is closed under transitions holds every stage reachable from `from`. */
  lemma {:induction false} ClosedHoldsPath(stages: Dict<Stage>, from: string, closed: set<string>, p: seq<string>)
    requires from in closed
    requires forall s, t :: s in closed && Edge(stages, s, t) ==> t in closed
    requires IsPath(stages, p) && p[0] == from
    ensures p[|p| - 1] in closed
    decreases |p|
  {
    if |p| > 1 {
      var q := p[..|p| - 1];
      assert IsPath(stages, q) by {
        forall i | 0 <= i < |q| - 1 ensures Edge(stages, q[i], q[i + 1]) {
          assert q[i] == p[i] && q[i + 1] == p[i + 1];
        }
      }
      ClosedHoldsPath(stages, from, closed, q);
      assert Edge(stages, p[|p| - 2], p[|p| - 1]);
    }
  }

  /** One transition more keeps a stage reachable. */
  lemma ReachableStep(stages: Dict<Stage>, from: string, s: string, t: string)
    requires Reachable(stages, from, s)
    requires Edge(stages, s, t)
    ensures Reachable(stages, from, t)
  {
    var p :| IsPath(stages, p) && p[0] == from && p[|p| - 1] == s;
    var q := p + [t];
    assert IsPath(stages, q) by {
      forall i | 0 <= i < |q| - 1 ensures Edge(stages, q[i], q[i + 1]) {
        if i < |p| - 1 {
          assert q[i] == p[i] && q[i + 1] == p[i + 1];
        }
      }
    }
  }

  /** Seeing more stages leaves fewer of `keys` unseen. */
  lemma OutsideShrinks(keys: set<string>, seen: set<string>, seen': set<string>)
    requires seen <= seen' <= keys && seen' != seen
    ensures |keys - seen'| < |keys - seen|
  {
    var t :| t in seen' && t !in seen;
    assert keys - seen' <= (keys - seen) - {t};
    SubsetSmaller(keys - seen', (keys - seen) - {t});
  }

  lemma SubsetSmaller(a: set<string>, b: set<string>)
    requires a <= b
    ensures |a| <= |b|
  {
    assert b == a + (b - a);
  }

  predicate Distinct(q: seq<string>) {
    forall i, j :: 0 <= i < j < |q| ==> q[i] != q[j]
  }

  /**
    * The inner loop of the search: each target not seen yet is marked seen
    * and queued, in the order the targets are listed.
    */
  method EnqueueUnseen(targets: seq<string>, seen: set<string>, queue: seq<string>)
    returns (seen': set<string>, queue': seq<string>)
    requires Distinct(queue) && forall q :: q in queue ==> q in seen
    ensures forall x :: x in seen' <==> x in seen || x in targets
    ensures |queue'| >= |queue| && queue'[..|queue|] == queue
    ensures forall q :: q in queue' <==> q in queue || (q in targets && q !in seen)
    ensures Distinct(queue')
    ensures seen' == seen ==> queue' == queue
  {
    seen', queue' := seen, queue;
    var k := 0;
    while k < |targets|
      invariant 0 <= k <= |targets|
      invariant forall x :: x in seen' <==> x in seen || x in targets[..k]
      invariant |queue'| >= |queue| && queue'[..|queue|] == queue
      invariant forall q :: q in queue' <==> q in queue || (q in targets[..k] && q !in seen)
      invariant Distinct(queue') && forall q :: q in queue' ==> q in seen'
      invariant seen' == seen ==> queue' == queue
    {
      var t := targets[k];
      assert targets[..k + 1] == targets[..k] + [t];
      if t !in seen' {
        seen' := seen' + {t};
        queue' := queue' + [t];
      }
      k := k + 1;
    }
    assert targets[..k] == targets;
  }

  /**
    * The breadth-first search of `validate_references`: the queue holds
    * stages seen but not yet expanded, and a stage is queued at most once.
    */
  method ReachableFrom(stages: Dict<Stage>, initial: string) returns (reachable: set<string>)
    requires HasKey(stages, initial)
    requires TargetsKnown(stages)
    ensures reachable <= KeySet(stages)
    ensures forall s :: s in reachable <==> Reachable(stages, initial, s)
  {
    var keys := KeySet(stages);
    reachable := {initial};
    var queue := [initial];
    assert initial in keys by {
      var i := Find(stages, initial);
    }
    assert IsPath(stages, [initial]);
    while queue != []
      invariant reachable <= keys
      invariant initial in reachable
      invariant Distinct(queue) && forall q :: q in queue ==> q in reachable
      invariant forall s, t :: s in reachable && s !in queue && Edge(stages, s, t) ==> t in reachable
      invariant forall s :: s in reachable ==> Reachable(stages, initial, s)
      decreases |keys - reachable|, |queue|
    {
      var current := queue[0];
      var targets := Successors(stages, current);
      forall t | t in targets ensures t in keys && Reachable(stages, initial, t) {
        SuccessorsKnown(stages, current, t);
        assert Edge(stages, current, t);
        ReachableStep(stages, initial, current, t);
      }
      ghost var before := reachable;
      assert current !in queue[1..] by {
        assert forall i :: 0 < i < |queue| ==> queue[i] != queue[0];
      }
      reachable, queue := EnqueueUnseen(targets, reachable, queue[1..]);
      if reachable != before {
        OutsideShrinks(keys, before, reachable);
      }
      assert forall t :: Edge(stages, current, t) ==> t in reachable;
    }
    forall s | Reachable(stages, initial, s) ensures s in reachable {
      var p :| IsPath(stages, p) && p[0] == initial && p[|p| - 1] == s;
      ClosedHoldsPath(stages, initial, reachable, p);
    }
  }

  // ----- WorkflowDefinition.validate_references -----

  datatype RefError =
    | UnknownRole(stage: string, role: string, available: seq<string>)
    | UnknownInitialStage(initial: string)
    | UnknownTarget(stage: string, target: string)
    | Unreachable(stages: seq<string>)
  {
    function Message(): string {
      match this
      case UnknownRole(s, r, available) =>
        "Stage '" + s + "' references unknown role '" + r + "'. Available roles: " + Text.Join(available, ", ")
      case UnknownInitialStage(i) =>
        "initial_stage '" + i + "' not found in stages"
      case UnknownTarget(s, t) =>
        "Stage '" + s + "' transitions to unknown stage '" + t + "'"
      case Unreachable(ss) =>
        "Unreachable stages: {" + Text.Join(Quoted(ss), ", ") + "}"
    }
  }

  function Quoted(ss: seq<string>): (r: seq<string>)
    ensures |r| == |ss|
  {
    seq(|ss|, i requires 0 <= i < |ss| => "'" + ss[i] + "'")
  }

  /** Stage entry `i` names an agent that is not a role. */
  predicate BadAgentAt(d: Definition, i: int)
    requires 0 <= i < |d.stages|
  {
    Text.Truthy(d.stages[i].1.agent) && d.stages[i].1.agent.value !in Keys(d.roles)
  }

  /** Target `j` of stage entry `i` is not a stage. */
  predicate BadTargetAt(d: Definition, i: int, j: int)
    requires 0 <= i < |d.stages|
    requires 0 <= j < |NextTargets(d.stages[i].1.next)|
  {
    !HasKey(d.stages, NextTargets(d.stages[i].1.next)[j])
  }

  predicate AgentsKnown(d: Definition) {
    forall i :: 0 <= i < |d.stages| ==> !BadAgentAt(d, i)
  }

  /** The stage keys that `reachable` leaves out, in stage order. */
  function Outside(keys: seq<string>, reachable: set<string>): (r: seq<string>)
    ensures forall s :: s in r <==> s in keys && s !in reachable
  {
    if keys == [] then []
    else (if keys[0] in reachable then [] else [keys[0]]) + Outside(keys[1..], reachable)
  }

  /** Everything `validate_references` checks holds. */
  ghost predicate WellFormed(d: Definition) {
    && AgentsKnown(d)
    && HasKey(d.stages, d.initialStage)
    && TargetsKnown(d.stages)
    && forall s :: s in KeySet(d.stages) ==> Reachable(d.stages, d.initialStage, s)
  }

  /** `e` is the error `validate_references` reports first for `d`. */
  ghost predicate IsFirstViolation(d: Definition, e: RefError) {
    match e
    case UnknownRole(s, r, available) =>
      exists i :: 0 <= i < |d.stages| && BadAgentAt(d, i)
        && (forall j :: 0 <= j < i ==> !BadAgentAt(d, j))
        && s == d.stages[i].0 && r == d.stages[i].1.agent.value
        && available == Text.SortStrings(Keys(d.roles))
    case UnknownInitialStage(n) =>
      AgentsKnown(d) && !HasKey(d.stages, d.initialStage) && n == d.initialStage
    case UnknownTarget(s, t) =>
      AgentsKnown(d) && HasKey(d.stages, d.initialStage)
      && (exists i, j :: 0 <= i < |d.stages| && 0 <= j < |NextTargets(d.stages[i].1.next)|
            && BadTargetAt(d, i, j)
            && (forall i', j' :: 0 <= i' < i && 0 <= j' < |NextTargets(d.stages[i'].1.next)| ==> !BadTargetAt(d, i', j'))
            && (forall j' :: 0 <= j' < j ==> !BadTargetAt(d, i, j'))
            && s == d.stages[i].0 && t == NextTargets(d.stages[i].1.next)[j])
    case Unreachable(ss) =>
      AgentsKnown(d) && HasKey(d.stages, d.initialStage) && TargetsKnown(d.stages)
      && ss != []
      && forall s :: s in ss <==> s in KeySet(d.stages) && !Reachable(d.stages, d.initialStage, s)
  }

  lemma KeySetHasKey<V>(m: Dict<V>, s: string)
    ensures s in KeySet(m) <==> HasKey(m, s)
  {
    if HasKey(m, s) {
      var i := Find(m, s);
      assert m[i].0 == s;
    }
  }

  /**
    * The reference checks of a definition, stopping at the first violation:
    * unknown roles, then the initial stage, then transition targets, then
    * stages the initial stage cannot reach.
    */
  method ValidateReferences(d: Definition) returns (err: Option<RefError>)
    ensures err.None? <==> WellFormed(d)
    ensures err.Some? ==> IsFirstViolation(d, err.value)
  {
    var i := 0;
    while i < |d.stages|
      invariant 0 <= i <= |d.stages|
      invariant forall j :: 0 <= j < i ==> !BadAgentAt(d, j)
    {
      var stage := d.stages[i].1;
      if Text.Truthy(stage.agent) && stage.agent.value !in Keys(d.roles) {
        err := Some(UnknownRole(d.stages[i].0, stage.agent.value, Text.SortStrings(Keys(d.roles))));
        assert BadAgentAt(d, i);
        return;
      }
      i := i + 1;
    }

    if !HasKey(d.stages, d.initialStage) {
      return Some(UnknownInitialStage(d.initialStage));
    }

    i := 0;
    while i < |d.stages|
      invariant 0 <= i <= |d.stages|
      invariant forall i', j' :: 0 <= i' < i && 0 <= j' < |NextTargets(d.stages[i'].1.next)| ==> !BadTargetAt(d, i', j')
    {
      var targets := NextTargets(d.stages[i].1.next);
      var j := 0;
      while j < |targets|
        invariant 0 <= j <= |targets|
        invariant forall j' :: 0 <= j' < j ==> !BadTargetAt(d, i, j')
      {
        if !HasKey(d.stages, targets[j]) {
          err := Some(UnknownTarget(d.stages[i].0, targets[j]));
          assert BadTargetAt(d, i, j);
          return;
        }
        j := j + 1;
      }
      i := i + 1;
    }
    assert TargetsKnown(d.stages) by {
      forall i', t | 0 <= i' < |d.stages| && t in NextTargets(d.stages[i'].1.next) ensures HasKey(d.stages, t) {
        var ts := NextTargets(d.stages[i'].1.next);
        var j' :| 0 <= j' < |ts| && ts[j'] == t;
        assert !BadTargetAt(d, i', j');
      }
    }

    var reachable := ReachableFrom(d.stages, d.initialStage);
    var unreachable := Outside(Keys(d.stages), reachable);
    forall s ensures s in KeySet(d.stages) <==> s in Keys(d.stages) {
      KeySetHasKey(d.stages, s);
    }
    if unreachable != [] {
      assert unreachable[0] in KeySet(d.stages) && !Reachable(d.stages, d.initialStage, unreachable[0]);
      return Some(Unreachable(unreachable));
    }
    assert forall s :: s in KeySet(d.stages) ==> s in reachable;
    return None;
  }

  // ----- constructing a WorkflowDefinition from a parsed document -----

  /** A role entry as the document gives it: required fields may be absent. */
  datatype RawRoleDef = RawRoleDef(description: Option<string>, writes: Option<seq<string>>, readsField: Option<seq<string>>, rules: Option<string>)

  /** workflow.yml as parsed: required fields may be absent, optional ones take their defaults. */
  datatype RawWorkflow = RawWorkflow(
    name: Option<string>,
    version: Option<int>,
    roles: Option<Dict<RawRoleDef>>,
    stages: Option<Dict<Stage>>,
    initialStage: Option<string>,
    limits: Option<Dict<int>>)

  predicate RoleDefComplete(r: RawRoleDef) {
    r.description.Some? && r.writes.Some? && r.rules.Some?
  }

  /** The required-field errors of one role entry, in field order. */
  function RoleDefErrors(name: string, r: RawRoleDef): (errs: seq<SchemaError>)
    ensures errs == [] <==> RoleDefComplete(r)
  {
    (if r.description.None? then [Missing(["roles", name, "description"])] else [])
    + (if r.writes.None? then [Missing(["roles", name, "writes"])] else [])
    + (if r.rules.None? then [Missing(["roles", name, "rules"])] else [])
  }

  /** The errors of every role entry, in roles order; none means every entry is complete. */
  function RolesErrors(roles: Dict<RawRoleDef>): (errs: seq<SchemaError>)
    ensures errs == [] <==> forall i :: 0 <= i < |roles| ==> RoleDefComplete(roles[i].1)
  {
    if roles == [] then []
    else
      var rest := RolesErrors(roles[1..]);
      assert forall i :: 1 <= i < |roles| ==> roles[i] == roles[1..][i - 1];
      RoleDefErrors(roles[0].0, roles[0].1) + rest
  }

  /** One error per stage whose own check fails, in stages order. */
  function StagesErrors(stages: Dict<Stage>): (errs: seq<SchemaError>)
    ensures |errs| <= |stages|
    ensures errs == [] <==> forall i :: 0 <= i < |stages| ==> ValidateStage(stages[i].1).None?
  {
    if stages == [] then []
    else
      var rest := StagesErrors(stages[1..]);
      assert forall i :: 1 <= i < |stages| ==> stages[i] == stages[1..][i - 1];
      match ValidateStage(stages[0].1)
      case Some(e) => [SchemaError(["stages", stages[0].0], ValueError(e.Message()))] + rest
      case None => rest
  }

  /** Every error found before the definition's own validator runs, in field order. */
  function FieldErrors(raw: RawWorkflow): seq<SchemaError> {
    (if raw.name.None? then [Missing(["name"])] else [])
    + (match raw.roles case None => [Missing(["roles"])] case Some(rs) => RolesErrors(rs))
    + (match raw.stages case None => [Missing(["stages"])] case Some(ss) => StagesErrors(ss))
    + (if raw.initialStage.None? then [Missing(["initial_stage"])] else [])
  }

  /** A complete document is one with every required field present and every stage accepted. */
  predicate Complete(raw: RawWorkflow) {
    && raw.name.Some? && raw.roles.Some? && raw.stages.Some? && raw.initialStage.Some?
    && (forall i :: 0 <= i < |raw.roles.value| ==> RoleDefComplete(raw.roles.value[i].1))
    && (forall i :: 0 <= i < |raw.stages.value| ==> ValidateStage(raw.stages.value[i].1).None?)
  }

  lemma FieldErrorsNoneIffComplete(raw: RawWorkflow)
    ensures FieldErrors(raw) == [] <==> Complete(raw)
  {
  }

  function ToRoleDef(r: RawRoleDef): RoleDef
    requires RoleDefComplete(r)
  {
    RoleDef(r.description.value, r.writes.value, r.readsField.GetOr([]), r.rules.value)
  }

  /** The definition a complete document describes, with `version` 1, `reads` [] and `limits` {} by default. */
  function ToDefinition(raw: RawWorkflow): (d: Definition)
    requires Complete(raw)
    ensures Keys(d.roles) == Keys(raw.roles.value) && Keys(d.stages) == Keys(raw.stages.value)
  {
    var rs := raw.roles.value;
    Definition(
      raw.name.value,
      raw.version.GetOr(1),
      seq(|rs|, i requires 0 <= i < |rs| => (rs[i].0, ToRoleDef(rs[i].1))),
      raw.stages.value,
      raw.initialStage.value,
      raw.limits.GetOr([]))
  }

  /**
    * `WorkflowDefinition.model_validate`: every field error, or else the
    * single error of the definition's own validator, reported at the
    * document root.
    */
  method ParseWorkflow(raw: RawWorkflow) returns (r: Result<Definition, seq<SchemaError>>)
    ensures !Complete(raw) ==> r == Failure(FieldErrors(raw)) && r.error != []
    ensures Complete(raw) ==> (r.Success? <==> WellFormed(ToDefinition(raw)))
    ensures r.Success? ==> Complete(raw) && r.value == ToDefinition(raw)
    ensures Complete(raw) && r.Failure? ==>
      exists e :: IsFirstViolation(ToDefinition(raw), e) && r.error == [SchemaError([], ValueError(e.Message()))]
  {
    FieldErrorsNoneIffComplete(raw);
    if !Complete(raw) {
      return Failure(FieldErrors(raw));
    }
    var d := ToDefinition(raw);
    var err := ValidateReferences(d);
    match err
    case Some(e) => return Failure([SchemaError([], ValueError(e.Message()))]);
    case None => return Success(d);
  }
}
