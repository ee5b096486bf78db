/** Static plan verification (planning/verify.py) and plan validation (planning/models.py). */
module PlanVerification {
  import opened Wrappers
  import opened Digraph
  import opened CycleSearch
  import opened Plans
  import opened ExecutionOrders
  import opened TaskGraph
  import opened Kahn
  import opened Levels

  datatype Issue =
    | EmptyGoal
    | NoSteps
    | StepLimit(count: nat, limit: int)
    | BadSequences
    | DuplicateId(id: Id)
    | EmptyDescription(id: Id)
    | EmptyTool(id: Id)
    | UnknownTool(id: Id, tool: string)
    | InvalidRisk(id: Id)
    | UnknownDep(id: Id, dep: Id)
    | SelfDep(id: Id)
    | Cycle(ids: seq<Id>)
    | OrderingFailed(error: GraphError)

  datatype Warning = NeedsApproval(id: Id) | NoAcceptanceCriteria(id: Id)

  datatype Report = Report(
    planId: string,
    ok: bool,
    errors: seq<Issue>,
    warnings: seq<Warning>,
    requiresApproval: seq<Id>,
    executionOrder: seq<Id>,
    maxLevel: nat)

  predicate ContiguousSequences(steps: seq<Step>) {
    forall i :: 0 <= i < |steps| ==> steps[i].sequence == i + 1
  }

  predicate StepOk(s: Step, tools: set<string>) {
    !Blank(s.description) && !Blank(s.toolId) && s.toolId in tools && !s.risk.Other?
  }

  /** Everything the verifier itself looks at, apart from the ordering step's own ceiling. */
  ghost predicate ContentOk(plan: Plan, maxSteps: int, tools: set<string>) {
    && !Blank(plan.goal) && plan.steps != [] && |plan.steps| <= maxSteps
    && ContiguousSequences(plan.steps) && DistinctIds(plan.steps)
    && (forall s :: s in plan.steps ==>
          !Blank(s.description) && !Blank(s.toolId) && s.toolId in tools && s.risk in {Low, Medium, High, Critical})
    && KnownDeps(plan.steps) && NoSelfDeps(plan.steps) && Acyclic(GraphOf(plan.steps))
  }

  predicate Risky(s: Step) {
    s.risk.High? || s.risk.Critical?
  }

  function RiskyIds(steps: seq<Step>): seq<Id> {
    if steps == [] then [] else
      RiskyIds(steps[..|steps| - 1]) + if Risky(steps[|steps| - 1]) then [steps[|steps| - 1].id] else []
  }

  method CheckSequences(steps: seq<Step>) returns (ok: bool)
    ensures ok <==> ContiguousSequences(steps)
  {
    ok := true;
    for i := 0 to |steps|
      invariant ok <==> forall k :: 0 <= k < i ==> steps[k].sequence == k + 1
    {
      ok := ok && steps[i].sequence == i + 1;
    }
  }

  // The issues one step adds, given the ids seen before it.
  function StepIssues(s: Step, seen: set<Id>, tools: set<string>): (issues: seq<Issue>)
    ensures issues == [] <==> s.id !in seen && StepOk(s, tools)
    ensures forall x :: DuplicateId(x) in issues <==> x == s.id && s.id in seen
    ensures forall e :: e in issues ==> !e.OrderingFailed? && !e.Cycle?
  {
    (if s.id in seen then [DuplicateId(s.id)] else [])
    + (if Blank(s.description) then [EmptyDescription(s.id)] else [])
    + (if Blank(s.toolId) then [EmptyTool(s.id)]
       else if s.toolId !in tools then [UnknownTool(s.id, s.toolId)] else [])
    + (if s.risk.Other? then [InvalidRisk(s.id)] else [])
  }

  function StepErrors(steps: seq<Step>, tools: set<string>): seq<Issue> {
    if steps == [] then [] else
      var front, last := steps[..|steps| - 1], steps[|steps| - 1];
      StepErrors(front, tools) + StepIssues(last, Ids(front), tools)
  }

  function StepWarnings(steps: seq<Step>): seq<Warning> {
    if steps == [] then [] else
      var front, last := steps[..|steps| - 1], steps[|steps| - 1];
      StepWarnings(front)
      + (if Risky(last) then [NeedsApproval(last.id)] else [])
      + (if Blank(last.acceptanceCriteria) then [NoAcceptanceCriteria(last.id)] else [])
  }

  method CheckSteps(steps: seq<Step>, tools: set<string>)
    returns (errors: seq<Issue>, warnings: seq<Warning>, requiresApproval: seq<Id>)
    ensures errors == StepErrors(steps, tools)
    ensures warnings == StepWarnings(steps)
    ensures requiresApproval == RiskyIds(steps)
  {
    errors, warnings, requiresApproval := [], [], [];
    var seen: set<Id> := {};
    for n := 0 to |steps|
      invariant seen == Ids(steps[..n])
      invariant errors == StepErrors(steps[..n], tools)
      invariant warnings == StepWarnings(steps[..n])
      invariant requiresApproval == RiskyIds(steps[..n])
    {
      var s := steps[n];
      assert steps[..n + 1][..n] == steps[..n];
      assert steps[..n + 1] == steps[..n] + [s];
      IdsOfLonger(steps[..n], s);
      errors := errors + StepIssues(s, seen, tools);
      seen := seen + {s.id};
      if Risky(s) {
        requiresApproval := requiresApproval + [s.id];
        warnings := warnings + [NeedsApproval(s.id)];
      }
      if Blank(s.acceptanceCriteria) {
        warnings := warnings + [NoAcceptanceCriteria(s.id)];
      }
    }
    assert steps[..|steps|] == steps;
  }

  lemma DistinctIdsNext(front: seq<Step>, last: Step)
    ensures DistinctIds(front + [last]) <==> DistinctIds(front) && last.id !in Ids(front)
  {
    var s := front + [last];
    assert forall i :: 0 <= i < |front| ==> s[i] == front[i] && front[i].id in Ids(front);
    if DistinctIds(s) {
      assert forall i :: 0 <= i < |front| ==> s[i].id != s[|front|].id;
      assert forall i, j :: 0 <= i < j < |front| ==> s[i].id != s[j].id;
    }
  }

  /** The per-step check is clean exactly when ids are distinct and every step is well formed. */
  lemma {:induction false} StepErrorsCharacterised(steps: seq<Step>, tools: set<string>)
    ensures StepErrors(steps, tools) == [] <==>
      && DistinctIds(steps)
      && (forall s :: s in steps ==>
            !Blank(s.description) && !Blank(s.toolId) && s.toolId in tools && s.risk in {Low, Medium, High, Critical})
    ensures forall e :: e in StepErrors(steps, tools) ==> !e.OrderingFailed? && !e.Cycle?
  {
    hide Blank, StepIssues, Ids;
    if steps != [] {
      var front, last := steps[..|steps| - 1], steps[|steps| - 1];
      assert steps == front + [last];
      StepErrorsCharacterised(front, tools);
      DistinctIdsNext(front, last);
    }
  }

  ghost predicate CarriedTwice(steps: seq<Step>, x: Id) {
    exists i, j :: 0 <= i < j < |steps| && steps[i].id == x && steps[j].id == x
  }

  lemma CarriedTwiceNext(front: seq<Step>, last: Step, x: Id)
    ensures CarriedTwice(front + [last], x) <==> CarriedTwice(front, x) || (last.id == x && x in Ids(front))
  {
    var s := front + [last];
    if CarriedTwice(front, x) {
      var i, j :| 0 <= i < j < |front| && front[i].id == x && front[j].id == x;
      assert s[i].id == x && s[j].id == x;
    }
    if last.id == x && x in Ids(front) {
      var i :| 0 <= i < |front| && front[i].id == x;
      assert s[i].id == x && s[|front|].id == x;
    }
    if CarriedTwice(s, x) {
      var i, j :| 0 <= i < j < |s| && s[i].id == x && s[j].id == x;
      assert front[i].id == x;
      assert j < |front| ==> front[j].id == x;
    }
  }

  /** The faults of single steps. */
  ghost predicate StepFault(steps: seq<Step>, tools: set<string>, e: Issue) {
    match e
    case DuplicateId(x) => CarriedTwice(steps, x)
    case EmptyDescription(x) => exists s :: s in steps && s.id == x && Blank(s.description)
    case EmptyTool(x) => exists s :: s in steps && s.id == x && Blank(s.toolId)
    case UnknownTool(x, t) => exists s :: s in steps && s.id == x && s.toolId == t && !Blank(t) && t !in tools
    case InvalidRisk(x) => exists s :: s in steps && s.id == x && s.risk.Other?
    case _ => false
  }

  lemma StepFaultNext(front: seq<Step>, last: Step, tools: set<string>, e: Issue)
    ensures StepFault(front + [last], tools, e) <==>
      StepFault(front, tools, e) || e in StepIssues(last, Ids(front), tools)
  {
    hide CarriedTwice, Blank;
    if e.DuplicateId? {
      CarriedTwiceNext(front, last, e.id);
    }
  }

  /** An issue is reported exactly when a step has it; of duplicates, when two steps carry the id. */
  lemma {:induction false} StepFaultsReported(steps: seq<Step>, tools: set<string>, e: Issue)
    ensures e in StepErrors(steps, tools) <==> StepFault(steps, tools, e)
  {
    hide StepIssues, StepFault;
    if steps == [] {
      NoStepFault(tools, e);
    } else {
      var front, last := steps[..|steps| - 1], steps[|steps| - 1];
      assert steps == front + [last];
      StepFaultsReported(front, tools, e);
      StepFaultNext(front, last, tools, e);
    }
  }

  lemma NoStepFault(tools: set<string>, e: Issue)
    ensures !StepFault([], tools, e)
  {
  }

  /** A step needs approval exactly when its risk is high or critical; it is warned about then, and when it has no
      acceptance criteria. */
  lemma {:induction false} RiskyIdsCharacterised(steps: seq<Step>, x: Id)
    ensures x in RiskyIds(steps) <==> exists s :: s in steps && s.risk in {High, Critical} && s.id == x
    ensures NeedsApproval(x) in StepWarnings(steps) <==> x in RiskyIds(steps)
    ensures NoAcceptanceCriteria(x) in StepWarnings(steps) <==>
      exists s :: s in steps && Blank(s.acceptanceCriteria) && s.id == x
  {
    hide Blank;
    if steps != [] {
      var front, last := steps[..|steps| - 1], steps[|steps| - 1];
      assert steps == front + [last];
      RiskyIdsCharacterised(front, x);
    }
  }

  /** The faults of the dependencies. */
  ghost predicate GraphFault(steps: seq<Step>, e: Issue) {
    match e
    case UnknownDep(x, d) => exists s :: s in steps && s.id == x && d in s.dependsOn && d !in Ids(steps)
    case SelfDep(x) => exists s :: s in steps && s.id == x && x in s.dependsOn
    case Cycle(c) => KnownDeps(steps) && SimpleCycle(GraphOf(steps), c)
    case _ => false
  }

  /** The faults of the plan as a whole. */
  ghost predicate PlanFault(plan: Plan, maxSteps: int, e: Issue) {
    match e
    case EmptyGoal => Blank(plan.goal)
    case NoSteps => plan.steps == []
    case StepLimit(count, limit) => plan.steps != [] && count == |plan.steps| > limit == maxSteps
    case BadSequences => exists i :: 0 <= i < |plan.steps| && plan.steps[i].sequence != i + 1
    case _ => false
  }

  // The issues of the dependency checks; a cycle is only looked for when no dependency is missing.
  method CheckGraph(steps: seq<Step>) returns (errors: seq<Issue>)
    ensures errors == [] <==> KnownDeps(steps) && NoSelfDeps(steps) && Acyclic(GraphOf(steps))
    ensures forall e :: e in errors ==> GraphFault(steps, e)
    ensures forall e :: GraphFault(steps, e) && !e.Cycle? ==> e in errors
  {
    hide GraphFault, KnownDeps, NoSelfDeps, Acyclic;
    var missing := FindMissingDeps(steps);
    var selfDeps := FindSelfDeps(steps);
    errors := seq(|missing|, i requires 0 <= i < |missing| => UnknownDep(missing[i].0, missing[i].1))
            + seq(|selfDeps|, i requires 0 <= i < |selfDeps| => SelfDep(selfDeps[i]));
    GraphFaultsListed(steps, missing, selfDeps, errors);
    if missing == [] {
      var cycle := FindCycle(Nodes(steps));
      if cycle.Some? {
        CycleIsFault(steps, cycle.value);
        errors := errors + [Cycle(cycle.value)];
      }
    }
  }

  lemma CycleIsFault(steps: seq<Step>, c: seq<Id>)
    requires KnownDeps(steps) && SimpleCycle(GraphOf(steps), c)
    ensures GraphFault(steps, Cycle(c))
  {
  }

  lemma GraphFaultsListed(steps: seq<Step>, missing: seq<(Id, Id)>, selfDeps: seq<Id>, errors: seq<Issue>)
    requires forall p :: p in missing ==>
      exists s :: s in steps && s.id == p.0 && p.1 in s.dependsOn && p.1 !in Ids(steps)
    requires forall s, d :: s in steps && d in s.dependsOn && d !in Ids(steps) ==> (s.id, d) in missing
    requires forall x :: x in selfDeps <==> exists s :: s in steps && s.id == x && x in s.dependsOn
    requires |errors| == |missing| + |selfDeps|
    requires forall i :: 0 <= i < |missing| ==> errors[i] == UnknownDep(missing[i].0, missing[i].1)
    requires forall i :: 0 <= i < |selfDeps| ==> errors[|missing| + i] == SelfDep(selfDeps[i])
    ensures forall e :: e in errors ==> GraphFault(steps, e)
    ensures forall e :: GraphFault(steps, e) && !e.Cycle? ==> e in errors
  {
    forall e | e in errors ensures GraphFault(steps, e) {
      var i :| 0 <= i < |errors| && errors[i] == e;
      if i < |missing| {
        assert missing[i] in missing;
      } else {
        assert selfDeps[i - |missing|] in selfDeps;
      }
    }
    forall e | GraphFault(steps, e) && !e.Cycle? ensures e in errors {
      if e.UnknownDep? {
        var s :| s in steps && s.id == e.id && e.dep in s.dependsOn && e.dep !in Ids(steps);
        var p := (e.id, e.dep);
        assert p in missing;
        var i :| 0 <= i < |missing| && missing[i] == p;
        assert errors[i] == e;
      } else {
        assert e.SelfDep? && e.id in selfDeps;
        var i :| 0 <= i < |selfDeps| && selfDeps[i] == e.id;
        assert errors[|missing| + i] == e;
      }
    }
  }

  // A plan's longest dependency chain has d edges.
  ghost predicate DeepestLevel(g: Graph, d: nat) {
    && (exists w :: Walk(g, w) && |w| == d + 1)
    && (forall w :: Walk(g, w) && w != [] ==> |w| <= d + 1)
  }

  method MaxLevel(g: Graph, depths: map<Id, nat>) returns (m: nat)
    requires depths.Keys == g.Keys && depths != map[]
    requires forall x :: x in depths ==> LongestChain(g, x, depths[x])
    ensures DeepestLevel(g, m)
  {
    var rest := depths.Keys;
    var x :| x in rest;
    m := depths[x];
    rest := rest - {x};
    ghost var best := x;
    while rest != {}
      invariant rest <= depths.Keys && best in depths && depths[best] == m
      invariant forall y :: y in depths && y !in rest ==> depths[y] <= m
      decreases rest
    {
      var y :| y in rest;
      rest := rest - {y};
      if depths[y] > m {
        m, best := depths[y], y;
      }
    }
    assert LongestChain(g, best, m);
    forall w | Walk(g, w) && w != [] ensures |w| <= m + 1 {
      assert LongestChain(g, w[0], depths[w[0]]);
    }
  }

  function IdSeq(steps: seq<Step>): (ids: seq<Id>)
    ensures |ids| == |steps| && forall i :: 0 <= i < |steps| ==> ids[i] == steps[i].id
  {
    seq(|steps|, i requires 0 <= i < |steps| => steps[i].id)
  }

  ghost predicate Fault(plan: Plan, maxSteps: int, tools: set<string>, e: Issue) {
    PlanFault(plan, maxSteps, e) || StepFault(plan.steps, tools, e) || GraphFault(plan.steps, e)
  }

  lemma FaultsOfNone(plan: Plan, maxSteps: int, tools: set<string>, e: Issue)
    requires plan.steps == []
    ensures Fault(plan, maxSteps, tools, e) && !e.Cycle? <==> e == NoSteps || (e == EmptyGoal && Blank(plan.goal))
  {
  }

  lemma PlanFaultsListed(plan: Plan, maxSteps: int, errors: seq<Issue>)
    requires plan.steps != []
    requires errors == (if Blank(plan.goal) then [EmptyGoal] else [])
                       + (if |plan.steps| > maxSteps then [StepLimit(|plan.steps|, maxSteps)] else [])
                       + (if ContiguousSequences(plan.steps) then [] else [BadSequences])
    ensures forall e :: e in errors <==> PlanFault(plan, maxSteps, e)
  {
    hide Blank;
  }

  lemma FaultsReported(plan: Plan, maxSteps: int, tools: set<string>, planErrors: seq<Issue>, graphErrors: seq<Issue>)
    requires forall e :: e in planErrors <==> PlanFault(plan, maxSteps, e)
    requires forall e :: e in graphErrors ==> GraphFault(plan.steps, e)
    requires forall e :: GraphFault(plan.steps, e) && !e.Cycle? ==> e in graphErrors
    ensures
      var errors := planErrors + StepErrors(plan.steps, tools) + graphErrors;
      && (forall e :: e in errors ==> Fault(plan, maxSteps, tools, e))
      && (forall e :: Fault(plan, maxSteps, tools, e) && !e.Cycle? ==> e in errors)
      && (forall e :: OrderingFailed(e) !in errors)
  {
    hide PlanFault, StepFault, GraphFault, StepErrors;
    forall e ensures e in StepErrors(plan.steps, tools) <==> StepFault(plan.steps, tools, e) {
      StepFaultsReported(plan.steps, tools, e);
    }
    forall e {
      OrderingIsNoFault(plan, maxSteps, tools, e);
    }
  }

  lemma OrderingIsNoFault(plan: Plan, maxSteps: int, tools: set<string>, e: GraphError)
    ensures !Fault(plan, maxSteps, tools, OrderingFailed(e))
  {
  }

  /** The static check of a plan: what it reports, and what the report says of a plan that is in order. */
  method VerifyPlan(plan: Plan, maxSteps: int, tools: set<string>) returns (r: Report, ghost ordered: seq<Step>)
    ensures r.planId == plan.id && (r.ok <==> r.errors == [])
    ensures r.ok <==> ContentOk(plan, maxSteps, tools) && |plan.steps| <= 50
    ensures (exists e :: OrderingFailed(e) in r.errors)
       <==> ContentOk(plan, maxSteps, tools) && |plan.steps| > 50
    ensures plan.steps != [] ==> r.requiresApproval == RiskyIds(plan.steps) && r.warnings == StepWarnings(plan.steps)
    ensures r.ok ==> IsExecutionOrder(plan.steps, ordered) && LowestReadyFirst(plan.steps, ordered)
    ensures r.ok ==> r.executionOrder == IdSeq(ordered) && DeepestLevel(GraphOf(plan.steps), r.maxLevel)
    ensures forall e :: e in r.errors ==> e.OrderingFailed? || Fault(plan, maxSteps, tools, e)
    ensures forall e :: Fault(plan, maxSteps, tools, e) && !e.Cycle? ==> e in r.errors
  {
    hide Blank, PlanFault, StepFault, GraphFault, Fault, StepErrors, RiskyIds, StepWarnings;
    ordered := [];
    var steps := plan.steps;
    var errors := if Blank(plan.goal) then [EmptyGoal] else [];
    if steps == [] {
      forall e {
        FaultsOfNone(plan, maxSteps, tools, e);
      }
      return Report(plan.id, false, errors + [NoSteps], [], [], [], 0), [];
    }
    errors := errors + if |steps| > maxSteps then [StepLimit(|steps|, maxSteps)] else [];
    var contiguous := CheckSequences(steps);
    errors := errors + if contiguous then [] else [BadSequences];
    ghost var planErrors := errors;
    PlanFaultsListed(plan, maxSteps, errors);
    var stepErrors, warnings, requiresApproval := CheckSteps(steps, tools);
    StepErrorsCharacterised(steps, tools);
    var graphErrors := CheckGraph(steps);
    errors := errors + stepErrors + graphErrors;
    FaultsReported(plan, maxSteps, tools, planErrors, graphErrors);
    var order: seq<Id>, maxLevel := [], 0;
    if errors == [] {
      var r1 := TopologicalOrder(steps);
      if r1.Err? {
        errors := errors + [OrderingFailed(r1.error)];
      } else {
        ordered := r1.value;
        order := IdSeq(r1.value);
        var r2 := ComputeLevels(steps);
        GraphNodes(steps);
        assert steps[0].id in Ids(steps);
        maxLevel := MaxLevel(GraphOf(steps), r2.value);
      }
    }
    r := Report(plan.id, errors == [], errors, warnings, requiresApproval, order, maxLevel);
  }

  // --- Plan.validate

  datatype PlanError =
    | GoalEmpty
    | StepsEmpty
    | ExceedsCeiling
    | StepInvalid(id: Id)
    | SequencesNotContiguous
    | DependsOnUnknown(id: Id, dep: Id)
    | DependsOnItself(id: Id)
    | Cyclic(ids: seq<Id>)

  // Step.validate
  predicate StepValid(s: Step) {
    !Blank(s.description) && !Blank(s.toolId) && s.sequence >= 1 && forall d :: d in s.dependsOn ==> !Blank(d)
  }

  /** What Plan.validate accepts.  Distinct ids are not part of it. */
  ghost predicate PlanValid(plan: Plan) {
    && !Blank(plan.goal) && plan.steps != [] && |plan.steps| <= 50
    && (forall s :: s in plan.steps ==>
          !Blank(s.description) && !Blank(s.toolId) && s.sequence >= 1 && forall d :: d in s.dependsOn ==> !Blank(d))
    && ContiguousSequences(plan.steps)
    && KnownDeps(plan.steps) && NoSelfDeps(plan.steps) && Acyclic(GraphOf(plan.steps))
  }

  /** What an error says is so. */
  ghost predicate Invalid(plan: Plan, e: PlanError) {
    match e
    case GoalEmpty => Blank(plan.goal)
    case StepsEmpty => plan.steps == []
    case ExceedsCeiling => |plan.steps| > 50
    case StepInvalid(x) => (exists s :: s in plan.steps && s.id == x && (
                              || Blank(s.description) || Blank(s.toolId) || s.sequence < 1
                              || exists d :: d in s.dependsOn && Blank(d)))
    case SequencesNotContiguous => exists i :: 0 <= i < |plan.steps| && plan.steps[i].sequence != i + 1
    case DependsOnUnknown(x, d) => exists s :: s in plan.steps && s.id == x && d in s.dependsOn && d !in Ids(plan.steps)
    case DependsOnItself(x) => exists s :: s in plan.steps && s.id == x && x in s.dependsOn
    case Cyclic(c) => SimpleCycle(GraphOf(plan.steps), c)
  }

  // The first dependency that is unknown or the step itself, in plan order.
  method CheckDependencies(steps: seq<Step>) returns (error: Option<PlanError>)
    ensures error.None? <==> KnownDeps(steps) && NoSelfDeps(steps)
    ensures error.Some? ==> match error.value
      case DependsOnUnknown(x, d) => exists s :: s in steps && s.id == x && d in s.dependsOn && d !in Ids(steps)
      case DependsOnItself(x) => exists s :: s in steps && s.id == x && x in s.dependsOn
      case _ => false
  {
    var known := Ids(steps);
    for i := 0 to |steps|
      invariant forall s :: s in steps[..i] ==> DepSet(s) <= known && s.id !in s.dependsOn
    {
      var s := steps[i];
      assert s in steps && steps[..i + 1] == steps[..i] + [s];
      for k := 0 to |s.dependsOn|
        invariant forall d :: d in s.dependsOn[..k] ==> d in known && d != s.id
      {
        var dep := s.dependsOn[k];
        assert s.dependsOn[..k + 1] == s.dependsOn[..k] + [dep] && dep in DepSet(s);
        if dep !in known {
          return Some(DependsOnUnknown(s.id, dep));
        }
        if dep == s.id {
          return Some(DependsOnItself(s.id));
        }
      }
      assert s.dependsOn[..|s.dependsOn|] == s.dependsOn;
    }
    assert steps[..|steps|] == steps;
    return None;
  }

  method ValidatePlan(plan: Plan) returns (error: Option<PlanError>)
    ensures error.None? <==> PlanValid(plan)
    ensures error.Some? ==> Invalid(plan, error.value)
  {
    hide Blank, KnownDeps, NoSelfDeps, Acyclic;
    if Blank(plan.goal) {
      return Some(GoalEmpty);
    }
    if plan.steps == [] {
      return Some(StepsEmpty);
    }
    if |plan.steps| > MAX_PLAN_STEPS_CEILING {
      return Some(ExceedsCeiling);
    }
    for i := 0 to |plan.steps|
      invariant forall k :: 0 <= k < i ==> StepValid(plan.steps[k])
    {
      if !StepValid(plan.steps[i]) {
        assert plan.steps[i] in plan.steps;
        return Some(StepInvalid(plan.steps[i].id));
      }
    }
    var contiguous := CheckSequences(plan.steps);
    if !contiguous {
      return Some(SequencesNotContiguous);
    }
    error := CheckDependencies(plan.steps);
    if error.Some? {
      return;
    }
    var cycle := FindCycle(Nodes(plan.steps));
    if cycle.Some? {
      return Some(Cyclic(cycle.value));
    }
    return None;
  }

  /** A verified plan passes validation exactly when no dependency is a blank id. */
  lemma VerifiedPlanValidates(plan: Plan, maxSteps: int, tools: set<string>)
    requires ContentOk(plan, maxSteps, tools) && |plan.steps| <= 50
    ensures PlanValid(plan) <==> forall s, d :: s in plan.steps && d in s.dependsOn ==> !Blank(d)
    ensures (forall s :: s in plan.steps ==> !Blank(s.id)) ==> PlanValid(plan)
  {
    forall s | s in plan.steps ensures s.sequence >= 1 {
      var i :| 0 <= i < |plan.steps| && plan.steps[i] == s;
    }
    forall s, d | s in plan.steps && d in s.dependsOn
      ensures exists t :: t in plan.steps && t.id == d
    {
      assert d in DepSet(s) && d in Ids(plan.steps);
      var i :| 0 <= i < |plan.steps| && plan.steps[i].id == d;
      assert plan.steps[i] in plan.steps;
    }
    if PlanValid(plan) {
      assert forall s :: s in plan.steps ==> StepValid(s);
    }
  }

  /** A verified linear plan runs in the order in which it is written. */
  lemma VerifiedLinearPlan(plan: Plan, maxSteps: int, tools: set<string>, ordered: seq<Step>)
    requires ContentOk(plan, maxSteps, tools) && DepsHaveSmallerSequence(plan.steps)
    requires IsExecutionOrder(plan.steps, ordered) && LowestReadyFirst(plan.steps, ordered)
    ensures ordered == plan.steps
  {
    LinearPlanUnchanged(plan.steps, ordered);
  }

  /** Validation lets through a plan in which two steps share an id; verification does not. */
  lemma ValidPlanMayRepeatIds() returns (plan: Plan)
    ensures PlanValid(plan) && !DistinctIds(plan.steps)
    ensures forall maxSteps, tools :: !ContentOk(plan, maxSteps, tools)
  {
    var s1 := Step("a", 1, "d", "t", Low, "", []);
    var s2 := s1.(sequence := 2);
    plan := Plan("p", "g", [s1, s2]);
    assert !Blank("d") by { assert !IsSpace("d"[0]); }
    assert !Blank("t") by { assert !IsSpace("t"[0]); }
    assert !Blank("g") by { assert !IsSpace("g"[0]); }
    assert plan.steps[0].id == plan.steps[1].id;
    forall w ensures !ClosedWalk(GraphOf(plan.steps), w) {
      if |w| >= 2 && Edge(GraphOf(plan.steps), w[0], w[1]) {
        EdgeNeedsDependency(plan.steps, w[0], w[1]);
      }
    }
  }

  lemma {:induction false} EdgeNeedsDependency(steps: seq<Step>, x: Id, y: Id)
    requires Edge(GraphOf(steps), x, y)
    ensures exists s :: s in steps && s.id == x && y in s.dependsOn
  {
    var g := GraphOf(steps);
    if g[x] != [] {
      ListSource(steps, x);
    }
  }

  lemma {:induction false} ListSource(steps: seq<Step>, x: Id)
    requires x in GraphOf(steps)
    ensures exists s :: s in steps && s.id == x && s.dependsOn == GraphOf(steps)[x]
  {
    var front, last := steps[..|steps| - 1], steps[|steps| - 1];
    assert steps == front + [last];
    assert Nodes(steps)[..|steps| - 1] == Nodes(front);
    if last.id != x {
      ListSource(front, x);
    } else {
      assert last in steps;
    }
  }
}
