/** Dependency-driven plan execution of runtime/execution-fabric: the plan and step operations of the
    fabric, and what a disciplined driver of those operations can rely on. */
module ExecutionFabric {
  import opened Wrappers
  import opened Sequences

  datatype PlanStatus =
    | PlannedPlan | AuthorizedPlan | PendingPlan | RunningPlan | ExecutingPlan | CheckpointedPlan | SuspendedPlan
    | ResumedPlan | ReplayedPlan | PausedPlan | WaitingRemoteRuntime | WaitingHumanReview | FailedPlan
    | CompletedPlan | RevokedPlan | CancelledPlan | InvalidPlan

  datatype StepStatus = Planned | Running | Blocked | Completed | Failed | Skipped

  datatype StepType =
    | EvaluatePolicy | ValidateIdentity | ValidateRelationship | IssueCapability | EvaluateCapabilityUse
    | ExecuteObligation | RequestHumanReview | AwaitRemoteDecision | EmitAttestation | PropagateRevocation

  datatype Step = Step(
    stepId: string, stepType: StepType, status: StepStatus, dependsOn: seq<string>, attestationRefs: seq<string>,
    optional: bool, requiresAttestation: bool,
    startedAt: Option<string>, completedAt: Option<string>, failureReason: Option<string>)

  datatype Plan = Plan(
      planId: string, steps: seq<Step>, status: PlanStatus, createdAt: string, completedAt: Option<string>)

  datatype FabricError =
    | PlanNotFound | PlanCannotStart | OnlyRunningPlansPause | PlanWaiting | UnfinishedRequiredSteps
    | CompletedPlanNotCancellable | TerminalPlan | StepNotFound | DependenciesNotCompleted
    | AttestationRequired | InvalidAttestation

  /** The attestation layer's check of a reference, where there is one. */
  type Validator = Option<string -> bool>

  predicate Accepts(v: Validator, ref: string) {
    v.None? || v.value(ref)
  }

  datatype AttestationRef = AttestationRef(planId: string, stepId: string, attestationRef: string)

  // ---------------------------------------------------------------- execution-plan.ts and execution-step.ts

  predicate CanStartPlan(status: PlanStatus) {
    status == PlannedPlan || status == PausedPlan
  }

  predicate HasUnfinishedRequiredSteps(plan: Plan) {
    exists s :: s in plan.steps && !s.optional && s.status != Completed
  }

  predicate PlanIsWaiting(plan: Plan) {
    plan.status == WaitingRemoteRuntime || plan.status == WaitingHumanReview
  }

  /** The position of the first step with this id. */
  function FindStep(steps: seq<Step>, stepId: string): (r: Option<nat>)
    ensures r.Some? ==> r.value < |steps| && steps[r.value].stepId == stepId
    ensures r.Some? ==> forall j :: 0 <= j < r.value ==> steps[j].stepId != stepId
    ensures r.None? <==> forall s :: s in steps ==> s.stepId != stepId
  {
    if steps == [] then None
    else if steps[0].stepId == stepId then Some(0)
    else
      var rest := FindStep(steps[1..], stepId);
      if rest.Some? then Some(rest.value + 1) else None
  }

  predicate CompletedIn(plan: Plan, stepId: string) {
    exists c :: c in plan.steps && c.stepId == stepId && c.status == Completed
  }

  predicate DependenciesCompleted(plan: Plan, step: Step) {
    forall d :: d in step.dependsOn ==> CompletedIn(plan, d)
  }

  function IsExecutable(plan: Plan): Step -> bool {
    (s: Step) => s.status == Planned && DependenciesCompleted(plan, s)
  }

  function IsBlocked(plan: Plan): Step -> bool {
    (s: Step) => s.status == Planned && !DependenciesCompleted(plan, s)
  }

  function ListExecutable(plan: Plan): seq<Step> {
    Filter(plan.steps, IsExecutable(plan))
  }

  function ListBlocked(plan: Plan): seq<Step> {
    Filter(plan.steps, IsBlocked(plan))
  }

  // ---------------------------------------------------------------- operations on one plan

  function StartPlan(plan: Plan): Result<Plan, FabricError> {
    if !CanStartPlan(plan.status) then Err(PlanCannotStart) else Ok(plan.(status := RunningPlan))
  }

  function PausePlan(plan: Plan): Result<Plan, FabricError> {
    if plan.status != RunningPlan then Err(OnlyRunningPlansPause) else Ok(plan.(status := PausedPlan))
  }

  function CompletePlan(plan: Plan, now: string): Result<Plan, FabricError> {
    if PlanIsWaiting(plan) then Err(PlanWaiting)
    else if HasUnfinishedRequiredSteps(plan) then Err(UnfinishedRequiredSteps)
    else Ok(plan.(status := CompletedPlan, completedAt := Some(now)))
  }

  function CancelPlan(plan: Plan, now: string): Result<Plan, FabricError> {
    if plan.status == CompletedPlan then Err(CompletedPlanNotCancellable)
    else Ok(plan.(status := CancelledPlan, completedAt := Some(now)))
  }

  function FailPlan(plan: Plan): Result<Plan, FabricError> {
    if plan.status == CompletedPlan || plan.status == CancelledPlan then Err(TerminalPlan)
    else Ok(plan.(status := FailedPlan))
  }

  function StartStep(plan: Plan, stepId: string, now: string): Result<Plan, FabricError> {
    match FindStep(plan.steps, stepId)
    case None => Err(StepNotFound)
    case Some(i) =>
      if !DependenciesCompleted(plan, plan.steps[i]) then Err(DependenciesNotCompleted)
      else Ok(plan.(steps := plan.steps[i := plan.steps[i].(status := Running, startedAt := Some(now))]))
  }

  predicate LacksAttestation(step: Step) {
    (step.stepType == EmitAttestation || step.requiresAttestation) && step.attestationRefs == []
  }

  function CompleteStep(plan: Plan, stepId: string, now: string): Result<Plan, FabricError> {
    match FindStep(plan.steps, stepId)
    case None => Err(StepNotFound)
    case Some(i) =>
      if LacksAttestation(plan.steps[i]) then Err(AttestationRequired)
      else Ok(plan.(steps := plan.steps[i := plan.steps[i].(status := Completed, completedAt := Some(now))]))
  }

  function MarkStepFailed(plan: Plan, i: nat, reason: string): Plan
    requires i < |plan.steps|
  {
    plan.(steps := plan.steps[i := plan.steps[i].(status := Failed, failureReason := Some(reason))])
  }

  function AttachRef(plan: Plan, stepId: string, attestationRef: string): Result<Plan, FabricError> {
    match FindStep(plan.steps, stepId)
    case None => Err(StepNotFound)
    case Some(i) =>
      Ok(plan.(steps := plan.steps[i :=
                                   plan.steps[i].(attestationRefs :=
                                                  plan.steps[i].attestationRefs + [attestationRef])]))
  }

  function RequireAttestation(plan: Plan, stepId: string): Result<Plan, FabricError> {
    match FindStep(plan.steps, stepId)
    case None => Err(StepNotFound)
    case Some(i) => Ok(plan.(steps := plan.steps[i := plan.steps[i].(requiresAttestation := true)]))
  }

  // ---------------------------------------------------------------- the fabric

  class ExecutionFabric {
    var plans: map<string, Plan>
    var stepAttestations: map<string, seq<AttestationRef>>
    const validateAttestationRef: Validator

    constructor (validateAttestationRef: Validator)
      ensures plans == map[] && stepAttestations == map[]
      ensures this.validateAttestationRef == validateAttestationRef
    {
      this.validateAttestationRef := validateAttestationRef;
      plans, stepAttestations := map[], map[];
    }

    method CreateExecutionPlan(plan: Plan)
      modifies this
      ensures plans == old(plans)[plan.planId := plan.(status := PlannedPlan)]
      ensures stepAttestations == old(stepAttestations)
    {
      plans := plans[plan.planId := plan.(status := PlannedPlan)];
    }

    /** Run an operation on a stored plan. */
    function OnPlan(planId: string, f: Plan -> Result<Plan, FabricError>): Result<Plan, FabricError>
      reads this
    {
      if planId !in plans then Err(PlanNotFound) else f(plans[planId])
    }

    method StartExecutionPlan(planId: string) returns (r: Result<Plan, FabricError>)
      modifies this
      ensures r == old(OnPlan(planId, (p: Plan) => StartPlan(p)))
      ensures r == if planId !in old(plans) then Err(PlanNotFound)
                   else if old(plans)[planId].status in {PlannedPlan, PausedPlan}
                   then Ok(old(plans)[planId].(status := RunningPlan))
                   else Err(PlanCannotStart)
      ensures plans == if r.Ok? then old(plans)[planId := r.value] else old(plans)
      ensures stepAttestations == old(stepAttestations)
    {
      if planId !in plans { return Err(PlanNotFound); }
      var plan := plans[planId];
      if !CanStartPlan(plan.status) { return Err(PlanCannotStart); }
      plan := plan.(status := RunningPlan);
      plans := plans[planId := plan];
      r := Ok(plan);
    }

    method PauseExecutionPlan(planId: string) returns (r: Result<Plan, FabricError>)
      modifies this
      ensures r == old(OnPlan(planId, (p: Plan) => PausePlan(p)))
      ensures r == if planId !in old(plans) then Err(PlanNotFound)
                   else if old(plans)[planId].status == RunningPlan
                   then Ok(old(plans)[planId].(status := PausedPlan))
                   else Err(OnlyRunningPlansPause)
      ensures plans == if r.Ok? then old(plans)[planId := r.value] else old(plans)
      ensures stepAttestations == old(stepAttestations)
    {
      if planId !in plans { return Err(PlanNotFound); }
      var plan := plans[planId];
      if plan.status != RunningPlan { return Err(OnlyRunningPlansPause); }
      plan := plan.(status := PausedPlan);
      plans := plans[planId := plan];
      r := Ok(plan);
    }

    method CompleteExecutionPlan(planId: string, now: string) returns (r: Result<Plan, FabricError>)
      modifies this
      ensures r == old(OnPlan(planId, (p: Plan) => CompletePlan(p, now)))
      ensures planId !in old(plans) ==> r == Err(PlanNotFound)
      ensures planId in old(plans) ==>
                var plan := old(plans)[planId];
                var waiting := plan.status in {WaitingRemoteRuntime, WaitingHumanReview};
                && (r == Err(PlanWaiting) <==> waiting)
                && (r == Err(UnfinishedRequiredSteps) <==>
                      !waiting && exists s :: s in plan.steps && !s.optional && s.status != Completed)
                && (r.Ok? <==> !waiting && forall s :: s in plan.steps ==> s.optional || s.status == Completed)
                && (r.Ok? ==> r.value == plan.(status := CompletedPlan, completedAt := Some(now)))
      ensures plans == if r.Ok? then old(plans)[planId := r.value] else old(plans)
      ensures stepAttestations == old(stepAttestations)
    {
      if planId !in plans { return Err(PlanNotFound); }
      var plan := plans[planId];
      if PlanIsWaiting(plan) { return Err(PlanWaiting); }
      if HasUnfinishedRequiredSteps(plan) { return Err(UnfinishedRequiredSteps); }
      plan := plan.(status := CompletedPlan);
      plan := plan.(completedAt := Some(now));
      plans := plans[planId := plan];
      r := Ok(plan);
    }

    method CancelExecutionPlan(planId: string, now: string) returns (r: Result<Plan, FabricError>)
      modifies this
      ensures r == old(OnPlan(planId, (p: Plan) => CancelPlan(p, now)))
      ensures r == if planId !in old(plans) then Err(PlanNotFound)
                   else if old(plans)[planId].status == CompletedPlan then Err(CompletedPlanNotCancellable)
                   else Ok(old(plans)[planId].(status := CancelledPlan, completedAt := Some(now)))
      ensures plans == if r.Ok? then old(plans)[planId := r.value] else old(plans)
      ensures stepAttestations == old(stepAttestations)
    {
      if planId !in plans { return Err(PlanNotFound); }
      var plan := plans[planId];
      if plan.status == CompletedPlan { return Err(CompletedPlanNotCancellable); }
      plan := plan.(status := CancelledPlan);
      plan := plan.(completedAt := Some(now));
      plans := plans[planId := plan];
      r := Ok(plan);
    }

    method FailExecutionPlan(planId: string) returns (r: Result<Plan, FabricError>)
      modifies this
      ensures r == old(OnPlan(planId, (p: Plan) => FailPlan(p)))
      ensures r == if planId !in old(plans) then Err(PlanNotFound)
                   else if old(plans)[planId].status in {CompletedPlan, CancelledPlan} then Err(TerminalPlan)
                   else Ok(old(plans)[planId].(status := FailedPlan))
      ensures plans == if r.Ok? then old(plans)[planId := r.value] else old(plans)
      ensures stepAttestations == old(stepAttestations)
    {
      if planId !in plans { return Err(PlanNotFound); }
      var plan := plans[planId];
      if plan.status == CompletedPlan || plan.status == CancelledPlan { return Err(TerminalPlan); }
      plan := plan.(status := FailedPlan);
      plans := plans[planId := plan];
      r := Ok(plan);
    }

    method AddExecutionStep(planId: string, step: Step) returns (r: Result<Plan, FabricError>)
      modifies this
      ensures r == old(OnPlan(planId, (p: Plan) => Ok(p.(steps := p.steps + [step]))))
      ensures plans == if r.Ok? then old(plans)[planId := r.value] else old(plans)
      ensures stepAttestations == old(stepAttestations)
    {
      if planId !in plans { return Err(PlanNotFound); }
      var plan := plans[planId];
      plan := plan.(steps := plan.steps + [step]);
      plans := plans[planId := plan];
      r := Ok(plan);
    }

    method StartExecutionStep(planId: string, stepId: string, now: string) returns (r: Result<Plan, FabricError>)
      modifies this
      ensures r == old(OnPlan(planId, (p: Plan) => StartStep(p, stepId, now)))
      ensures plans == if r.Ok? then old(plans)[planId := r.value] else old(plans)
      ensures stepAttestations == old(stepAttestations)
    {
      if planId !in plans { return Err(PlanNotFound); }
      var plan := plans[planId];
      var found := FindStep(plan.steps, stepId);
      if found.None? { return Err(StepNotFound); }
      var step := plan.steps[found.value];
      if !DependenciesCompleted(plan, step) { return Err(DependenciesNotCompleted); }
      step := step.(status := Running);
      step := step.(startedAt := Some(now));
      plan := plan.(steps := plan.steps[found.value := step]);
      plans := plans[planId := plan];
      r := Ok(plan);
    }

    method CompleteExecutionStep(planId: string, stepId: string, now: string) returns (r: Result<Plan, FabricError>)
      modifies this
      ensures r == old(OnPlan(planId, (p: Plan) => CompleteStep(p, stepId, now)))
      ensures plans == if r.Ok? then old(plans)[planId := r.value] else old(plans)
      ensures stepAttestations == old(stepAttestations)
    {
      if planId !in plans { return Err(PlanNotFound); }
      var plan := plans[planId];
      var found := FindStep(plan.steps, stepId);
      if found.None? { return Err(StepNotFound); }
      var step := plan.steps[found.value];
      if step.stepType == EmitAttestation && |step.attestationRefs| == 0 { return Err(AttestationRequired); }
      if step.requiresAttestation && |step.attestationRefs| == 0 { return Err(AttestationRequired); }
      step := step.(status := Completed);
      step := step.(completedAt := Some(now));
      plan := plan.(steps := plan.steps[found.value := step]);
      plans := plans[planId := plan];
      r := Ok(plan);
    }

    /** The step is marked failed before the plan is: on a completed or cancelled plan the call fails,
        yet the step keeps its new status. */
    method FailExecutionStep(planId: string, stepId: string, reason: string) returns (r: Result<Step, FabricError>)
      modifies this
      ensures planId !in old(plans) ==> r == Err(PlanNotFound) && plans == old(plans)
      ensures planId in old(plans) && FindStep(old(plans)[planId].steps, stepId).None? ==>
                r == Err(StepNotFound) && plans == old(plans)
      ensures planId in old(plans) && FindStep(old(plans)[planId].steps, stepId).Some? ==>
                var plan := old(plans)[planId];
                var i := FindStep(plan.steps, stepId).value;
                var marked := MarkStepFailed(plan, i, reason);
                if plan.steps[i].optional then r == Ok(marked.steps[i]) && plans == old(plans)[planId := marked]
                else if plan.status in {CompletedPlan, CancelledPlan}
                        then r == Err(TerminalPlan) && plans == old(plans)[planId := marked]
                else r == Ok(marked.steps[i]) && plans == old(plans)[planId := marked.(status := FailedPlan)]
      ensures stepAttestations == old(stepAttestations)
    {
      if planId !in plans { return Err(PlanNotFound); }
      var found := FindStep(plans[planId].steps, stepId);
      if found.None? { return Err(StepNotFound); }
      var marked := MarkStepFailed(plans[planId], found.value, reason);
      plans := plans[planId := marked];
      if !marked.steps[found.value].optional {
        var failed := FailExecutionPlan(planId);
        if failed.Err? { return Err(failed.error); }
      }
      r := Ok(marked.steps[found.value]);
    }

    method ListExecutableSteps(planId: string) returns (r: Result<seq<Step>, FabricError>)
      ensures planId !in plans ==> r == Err(PlanNotFound)
      ensures planId in plans ==> r.Ok? && IsSelection(r.value, plans[planId].steps, IsExecutable(plans[planId]))
    {
      if planId !in plans { return Err(PlanNotFound); }
      var plan := plans[planId];
      FilterIsSelection(plan.steps, IsExecutable(plan));
      r := Ok(ListExecutable(plan));
    }

    method ListBlockedSteps(planId: string) returns (r: Result<seq<Step>, FabricError>)
      ensures planId !in plans ==> r == Err(PlanNotFound)
      ensures planId in plans ==> r.Ok? && IsSelection(r.value, plans[planId].steps, IsBlocked(plans[planId]))
    {
      if planId !in plans { return Err(PlanNotFound); }
      var plan := plans[planId];
      FilterIsSelection(plan.steps, IsBlocked(plan));
      r := Ok(ListBlocked(plan));
    }

    /** The reference is logged before the step is looked up, so a failing call still leaves it logged. */
    method AttachExecutionAttestation(planId: string, stepId: string, attestationRef: string)
      returns (r: Result<Plan, FabricError>)
      modifies this
      ensures !Accepts(validateAttestationRef, attestationRef) ==>
                r == Err(InvalidAttestation) && plans == old(plans) && stepAttestations == old(stepAttestations)
      ensures Accepts(validateAttestationRef, attestationRef) ==>
                var key := planId + ":" + stepId;
                && r == old(OnPlan(planId, (p: Plan) => AttachRef(p, stepId, attestationRef)))
                && (plans == if r.Ok? then old(plans)[planId := r.value] else old(plans))
                && stepAttestations.Keys == old(stepAttestations).Keys + {key}
                && stepAttestations[key] == (if key in old(stepAttestations) then old(stepAttestations)[key] else [])
                                            + [AttestationRef(planId, stepId, attestationRef)]
                && forall k :: k in old(stepAttestations) && k != key ==>
                   stepAttestations[k] == old(stepAttestations)[k]
    {
      if validateAttestationRef.Some? && !validateAttestationRef.value(attestationRef) {
        return Err(InvalidAttestation);
      }
      var key := planId + ":" + stepId;
      var existing := if key in stepAttestations then stepAttestations[key] else [];
      stepAttestations := stepAttestations[key := existing + [AttestationRef(planId, stepId, attestationRef)]];
      if planId !in plans { return Err(PlanNotFound); }
      var plan := plans[planId];
      var found := FindStep(plan.steps, stepId);
      if found.None? { return Err(StepNotFound); }
      var step := plan.steps[found.value];
      step := step.(attestationRefs := step.attestationRefs + [attestationRef]);
      plan := plan.(steps := plan.steps[found.value := step]);
      plans := plans[planId := plan];
      r := Ok(plan);
    }

    method RequireStepAttestation(planId: string, stepId: string) returns (r: Result<Plan, FabricError>)
      modifies this
      ensures r == old(OnPlan(planId, (p: Plan) => RequireAttestation(p, stepId)))
      ensures plans == if r.Ok? then old(plans)[planId := r.value] else old(plans)
      ensures stepAttestations == old(stepAttestations)
    {
      if planId !in plans { return Err(PlanNotFound); }
      var plan := plans[planId];
      var found := FindStep(plan.steps, stepId);
      if found.None? { return Err(StepNotFound); }
      var step := plan.steps[found.value];
      step := step.(requiresAttestation := true);
      plan := plan.(steps := plan.steps[found.value := step]);
      plans := plans[planId := plan];
      r := Ok(plan);
    }
  }

  // ---------------------------------------------------------------- what the operations do

  /** The plan with this one step changed. */
  ghost predicate OnlyStepChanged(plan: Plan, after: Plan, i: nat) {
    && i < |plan.steps| && after == plan.(steps := after.steps) && |after.steps| == |plan.steps|
    && forall j :: 0 <= j < |plan.steps| && j != i ==> after.steps[j] == plan.steps[j]
  }

  /** The first step with the id. */
  ghost predicate IsFirst(steps: seq<Step>, stepId: string, i: nat) {
    i < |steps| && steps[i].stepId == stepId && forall j :: 0 <= j < i ==> steps[j].stepId != stepId
  }

  /** Starting the first step with an id: when each of its dependencies is the id of some completed step. */
  lemma StartStepSays(plan: Plan, stepId: string, now: string, i: nat)
    requires IsFirst(plan.steps, stepId, i)
    ensures var r := StartStep(plan, stepId, now);
            && (r == Err(DependenciesNotCompleted) <==>
                  exists d :: d in plan.steps[i].dependsOn
                              && forall c :: c in plan.steps && c.stepId == d ==> c.status != Completed)
            && (r.Err? ==> r.error == DependenciesNotCompleted)
            && (r.Ok? ==>
                  && OnlyStepChanged(plan, r.value, i)
                  && r.value.steps[i] == plan.steps[i].(status := Running, startedAt := Some(now)))
  {
    if StartStep(plan, stepId, now).Err? {
      var d :| d in plan.steps[i].dependsOn && !CompletedIn(plan, d);
    }
  }

  /** Completing it: unless it must attest, by its type or by demand, and no reference is attached. */
  lemma CompleteStepSays(plan: Plan, stepId: string, now: string, i: nat)
    requires IsFirst(plan.steps, stepId, i)
    ensures var r, step := CompleteStep(plan, stepId, now), plan.steps[i];
            && (r == Err(AttestationRequired) <==>
                  (step.stepType == EmitAttestation || step.requiresAttestation) && step.attestationRefs == [])
            && (r.Err? ==> r.error == AttestationRequired)
            && (r.Ok? ==>
                  && OnlyStepChanged(plan, r.value, i)
                  && r.value.steps[i] == step.(status := Completed, completedAt := Some(now)))
  {
  }

  /** Failing it, attaching a reference to it, and demanding an attestation of it always work. */
  lemma StepChangesSay(plan: Plan, stepId: string, reason: string, ref: string, i: nat)
    requires IsFirst(plan.steps, stepId, i)
    ensures var failed := MarkStepFailed(plan, i, reason);
            OnlyStepChanged(plan, failed, i)
            && failed.steps[i] == plan.steps[i].(status := Failed, failureReason := Some(reason))
    ensures var r := AttachRef(plan, stepId, ref);
            && r.Ok? && OnlyStepChanged(plan, r.value, i)
            && r.value.steps[i] == plan.steps[i].(attestationRefs := plan.steps[i].attestationRefs + [ref])
    ensures var r := RequireAttestation(plan, stepId);
            && r.Ok? && OnlyStepChanged(plan, r.value, i)
            && r.value.steps[i] == plan.steps[i].(requiresAttestation := true)
  {
  }

  /** Without a step of that id they all fail alike. */
  lemma MissingStepSays(plan: Plan, stepId: string, now: string, ref: string)
    requires forall s :: s in plan.steps ==> s.stepId != stepId
    ensures StartStep(plan, stepId, now) == CompleteStep(plan, stepId, now) == Err(StepNotFound)
    ensures AttachRef(plan, stepId, ref) == RequireAttestation(plan, stepId) == Err(StepNotFound)
  {
  }

  /** A step is listed as executable when it is planned and each of its dependencies is the id of some completed step,
      and as blocked when it is planned and one is not. */
  lemma ListsSay(plan: Plan, s: Step)
    ensures var ready := forall d :: d in s.dependsOn ==>
            exists c :: c in plan.steps && c.stepId == d && c.status == Completed;
            && (IsExecutable(plan)(s) <==> s.status == Planned && ready)
            && (IsBlocked(plan)(s) <==> s.status == Planned && !ready)
  {
    assert forall d :: CompletedIn(plan, d) <==> exists c :: c in plan.steps && c.stepId == d && c.status == Completed;
  }

  datatype Move = StartMove | PauseMove | CompleteMove(at: string) | CancelMove(at: string) | FailMove

  /** A move that fails leaves the plan as it was. */
  function Moved(plan: Plan, move: Move): Plan {
    var r := match move
      case StartMove => StartPlan(plan)
      case PauseMove => PausePlan(plan)
      case CompleteMove(at) => CompletePlan(plan, at)
      case CancelMove(at) => CancelPlan(plan, at)
      case FailMove => FailPlan(plan);
    if r.Ok? then r.value else plan
  }

  function MovedAll(plan: Plan, moves: seq<Move>): Plan {
    if moves == [] then plan else Moved(MovedAll(plan, DropLast(moves)), Last(moves))
  }

  ghost predicate Finished(plan: Plan) {
    forall s :: s in plan.steps ==> s.optional || s.status == Completed
  }

  /** The life of a plan, over any sequence of starting, pausing, completing, cancelling and failing: a completed plan
      stays completed, and only a plan without unfinished required steps becomes completed. */
  lemma {:induction false} CompletedIsFinal(plan: Plan, moves: seq<Move>)
    ensures MovedAll(plan, moves).steps == plan.steps
    ensures plan.status == CompletedPlan ==> MovedAll(plan, moves).status == CompletedPlan
    ensures plan.status != CompletedPlan && MovedAll(plan, moves).status == CompletedPlan ==> Finished(plan)
  {
    if moves != [] {
      CompletedIsFinal(plan, DropLast(moves));
    }
  }

  /** A cancelled plan is not final: it can still be completed, exactly when no required step is unfinished, but neither
      started, paused nor failed. */
  lemma CancelledCanComplete(plan: Plan, move: Move)
    requires plan.status == CancelledPlan
    ensures Moved(plan, move).status == CompletedPlan <==> move.CompleteMove? && Finished(plan)
    ensures Moved(plan, move).status in {CompletedPlan, CancelledPlan}
  {
  }

  // ---------------------------------------------------------------- graphs of dependencies

  ghost predicate UniqueIds(steps: seq<Step>) {
    forall i, j :: 0 <= i < j < |steps| ==> steps[i].stepId != steps[j].stepId
  }

  ghost function Ids(steps: seq<Step>): set<string> {
    set s | s in steps :: s.stepId
  }

  ghost predicate DependsOn(steps: seq<Step>, a: string, b: string) {
    exists s :: s in steps && s.stepId == a && b in s.dependsOn
  }

  ghost predicate Resolvable(steps: seq<Step>) {
    forall a, b :: DependsOn(steps, a, b) ==> b in Ids(steps)
  }

  /** Each id depends on the one after it. */
  ghost predicate IsWalk(steps: seq<Step>, walk: seq<string>) {
    forall i :: 0 <= i < |walk| - 1 ==> DependsOn(steps, walk[i], walk[i + 1])
  }

  ghost predicate Acyclic(steps: seq<Step>) {
    forall walk :: IsWalk(steps, walk) && |walk| >= 2 ==> walk[0] != Last(walk)
  }

  ghost predicate FreshSteps(steps: seq<Step>) {
    UniqueIds(steps) && forall s :: s in steps ==> s.status == Planned
  }

  ghost predicate AllCompleted(steps: seq<Step>) {
    forall s :: s in steps ==> s.status == Completed
  }

  // ---------------------------------------------------------------- disciplined runs

  datatype Action = Start(stepId: string) | Attach(stepId: string, ref: string) | Complete(stepId: string)

  /** What a disciplined driver may do next: start a listed step, attach a reference the attestation layer accepts, or
      complete a running step that has the attestations it needs. */
  ghost predicate Enabled(v: Validator, plan: Plan, action: Action) {
    match action
    case Start(id) => exists s :: s in ListExecutable(plan) && s.stepId == id
    case Attach(id, ref) => id in Ids(plan.steps) && Accepts(v, ref)
    case Complete(id) => exists s :: s in plan.steps && s.stepId == id && s.status == Running && !LacksAttestation(s)
  }

  function Perform(v: Validator, plan: Plan, action: Action, now: string): Result<Plan, FabricError> {
    match action
    case Start(id) => StartStep(plan, id, now)
    case Attach(id, ref) => if Accepts(v, ref) then AttachRef(plan, id, ref) else Err(InvalidAttestation)
    case Complete(id) => CompleteStep(plan, id, now)
  }

  function Execute(v: Validator, plan: Plan, actions: seq<Action>, now: string): Plan {
    if actions == [] then plan
    else
      var before := Execute(v, plan, DropLast(actions), now);
      var r := Perform(v, before, Last(actions), now);
      if r.Ok? then r.value else before
  }

  ghost predicate Disciplined(v: Validator, plan: Plan, actions: seq<Action>, now: string) {
    actions != [] ==>
      && Disciplined(v, plan, DropLast(actions), now)
      && Enabled(v, Execute(v, plan, DropLast(actions), now), Last(actions))
  }

  function Completions(actions: seq<Action>): seq<string> {
    if actions == [] then []
    else Completions(DropLast(actions)) + if Last(actions).Complete? then [Last(actions).stepId] else []
  }

  /** Steps that differ in status, attestations and time stamps only. */
  predicate SameStep(s: Step, t: Step) {
    && s.stepId == t.stepId && s.stepType == t.stepType && s.dependsOn == t.dependsOn
    && s.optional == t.optional && s.requiresAttestation == t.requiresAttestation
  }

  ghost function CompletedIds(steps: seq<Step>): set<string> {
    set s | s in steps && s.status == Completed :: s.stepId
  }

  /** Two units of work for a planned step, one for a running one. */
  function Work(steps: seq<Step>): nat {
    if steps == [] then 0
    else Work(DropLast(steps)) + Units(Last(steps).status)
  }

  function Progress(actions: seq<Action>): nat {
    if actions == [] then 0
    else Progress(DropLast(actions)) + if Last(actions).Attach? then 0 else 1
  }

  ghost predicate RunInv(plan: Plan, now: Plan, completions: seq<string>) {
    && |now.steps| == |plan.steps|
    && now.status == plan.status
    && (forall i :: 0 <= i < |plan.steps| ==> SameStep(now.steps[i], plan.steps[i]))
    && (forall s :: s in now.steps ==> s.status in {Planned, Running, Completed})
    && (forall s :: s in now.steps && s.status != Planned ==> DependenciesCompleted(now, s))
    && (forall id :: id in completions <==> id in CompletedIds(now.steps))
    && Distinct(completions)
  }

  lemma UniqueFind(steps: seq<Step>, i: nat)
    requires UniqueIds(steps) && i < |steps|
    ensures FindStep(steps, steps[i].stepId) == Some(i)
  {
  }

  lemma SameIds(plan: Plan, now: Plan)
    requires |now.steps| == |plan.steps|
    requires forall i :: 0 <= i < |plan.steps| ==> SameStep(now.steps[i], plan.steps[i])
    ensures UniqueIds(plan.steps) ==> UniqueIds(now.steps)
    ensures Ids(now.steps) == Ids(plan.steps)
    ensures forall a, b :: DependsOn(now.steps, a, b) <==> DependsOn(plan.steps, a, b)
  {
    forall id ensures id in Ids(now.steps) <==> id in Ids(plan.steps) {
      if id in Ids(now.steps) {
        var i :| 0 <= i < |now.steps| && now.steps[i].stepId == id;
        assert plan.steps[i] in plan.steps;
      }
      if id in Ids(plan.steps) {
        var i :| 0 <= i < |plan.steps| && plan.steps[i].stepId == id;
        assert now.steps[i] in now.steps;
      }
    }
    forall a, b ensures DependsOn(now.steps, a, b) <==> DependsOn(plan.steps, a, b) {
      if DependsOn(now.steps, a, b) {
        var i :| 0 <= i < |now.steps| && now.steps[i].stepId == a && b in now.steps[i].dependsOn;
        assert plan.steps[i] in plan.steps;
      }
      if DependsOn(plan.steps, a, b) {
        var i :| 0 <= i < |plan.steps| && plan.steps[i].stepId == a && b in plan.steps[i].dependsOn;
        assert now.steps[i] in now.steps;
      }
    }
  }

  lemma {:induction false} WorkUpdate(steps: seq<Step>, i: nat, s: Step)
    requires i < |steps|
    ensures Work(steps[i := s]) - Work([s]) == Work(steps) - Work([steps[i]])
  {
    assert DropLast([s]) == [] && DropLast([steps[i]]) == [];
    if i == |steps| - 1 {
      assert DropLast(steps[i := s]) == DropLast(steps);
    } else {
      WorkUpdate(DropLast(steps), i, s);
      assert DropLast(steps[i := s]) == DropLast(steps)[i := s];
    }
  }

  /** Changing one step's status from planned or running upwards keeps completed what was completed. */
  lemma CompletedMonotone(plan: Plan, i: nat, s: Step)
    requires i < |plan.steps| && s.stepId == plan.steps[i].stepId
    requires plan.steps[i].status == Completed ==> s.status == Completed
    ensures forall id :: CompletedIn(plan, id) ==> CompletedIn(plan.(steps := plan.steps[i := s]), id)
  {
    var steps := plan.steps[i := s];
    forall id | CompletedIn(plan, id) ensures CompletedIn(plan.(steps := steps), id) {
      var j :| 0 <= j < |plan.steps| && plan.steps[j].stepId == id && plan.steps[j].status == Completed;
      assert steps[j] in steps;
    }
  }

  lemma CompletedAfterUpdate(steps: seq<Step>, i: nat, s: Step)
    requires i < |steps| && UniqueIds(steps) && s.stepId == steps[i].stepId
    ensures CompletedIds(steps[i := s]) ==
            (CompletedIds(steps) - {s.stepId}) + if s.status == Completed then {s.stepId} else {}
  {
    var updated := steps[i := s];
    forall id ensures id in CompletedIds(updated) <==>
                      id in (CompletedIds(steps) - {s.stepId}) + if s.status == Completed then {s.stepId} else {}
    {
      if id in CompletedIds(updated) {
        var j :| 0 <= j < |updated| && updated[j].stepId == id && updated[j].status == Completed;
        if j != i { assert steps[j] in steps; }
      }
      if id in CompletedIds(steps) && id != s.stepId {
        var j :| 0 <= j < |steps| && steps[j].stepId == id && steps[j].status == Completed;
        assert updated[j] in updated;
      }
      if s.status == Completed && id == s.stepId {
        assert updated[i] in updated;
      }
    }
  }

  function Units(status: StepStatus): nat {
    if status == Planned then 2 else if status == Running then 1 else 0
  }

  /** Moving one step's status forward, when its dependencies allow it, keeps the invariant. */
  lemma UpdateStep(plan: Plan, now: Plan, completions: seq<string>, i: nat, s: Step)
    requires UniqueIds(now.steps) && RunInv(plan, now, completions) && i < |now.steps|
    requires SameStep(s, now.steps[i]) && s.status in {Planned, Running, Completed}
    requires now.steps[i].status == Completed ==> s.status == Completed
    requires s.status != Planned ==> DependenciesCompleted(now, s)
    ensures RunInv(plan, now.(steps := now.steps[i := s]),
                   completions + if s.status == Completed && now.steps[i].status != Completed then [s.stepId] else [])
  {
    var next := now.(steps := now.steps[i := s]);
    CompletedMonotone(now, i, s);
    CompletedAfterUpdate(now.steps, i, s);
    forall t | t in next.steps
      ensures t.status in {Planned, Running, Completed}
      ensures t.status != Planned ==> DependenciesCompleted(next, t)
    {
      var j :| 0 <= j < |next.steps| && next.steps[j] == t;
      assert now.steps[j] in now.steps;
    }
    if now.steps[i].status == Completed {
      assert now.steps[i] in now.steps;
      assert s.stepId in CompletedIds(now.steps);
    } else {
      assert now.steps[i] in now.steps;
      OpenIsNotCompleted(now.steps, now.steps[i]);
    }
  }

  lemma UpdateWork(steps: seq<Step>, i: nat, s: Step)
    requires i < |steps|
    ensures Work(steps[i := s]) == Work(steps) - Units(steps[i].status) + Units(s.status)
  {
    WorkUpdate(steps, i, s);
    SingleWork(s);
    SingleWork(steps[i]);
  }

  lemma UniqueStep(steps: seq<Step>, s: Step, t: Step)
    requires UniqueIds(steps) && s in steps && t in steps && s.stepId == t.stepId
    ensures s == t
  {
    var i :| 0 <= i < |steps| && steps[i] == s;
    var j :| 0 <= j < |steps| && steps[j] == t;
    assert i == j;
  }

  lemma OpenIsNotCompleted(steps: seq<Step>, s: Step)
    requires UniqueIds(steps) && s in steps && s.status != Completed
    ensures s.stepId in Ids(steps) - CompletedIds(steps)
  {
    forall t | t in steps && t.stepId == s.stepId ensures t == s {
      UniqueStep(steps, s, t);
    }
  }

  /** The step an enabled action is about. */
  lemma EnabledTarget(v: Validator, now: Plan, action: Action) returns (i: nat)
    requires UniqueIds(now.steps) && Enabled(v, now, action)
    ensures i < |now.steps| && FindStep(now.steps, action.stepId) == Some(i)
    ensures action.Start? ==> now.steps[i].status == Planned && DependenciesCompleted(now, now.steps[i])
    ensures action.Complete? ==> now.steps[i].status == Running && !LacksAttestation(now.steps[i])
  {
    FilterMembers(now.steps, IsExecutable(now));
    var target: Step;
    match action {
      case Start(id) =>
        target :| target in ListExecutable(now) && target.stepId == id;
      case Attach(id, _) =>
        target :| target in now.steps && target.stepId == id;
      case Complete(id) =>
        target :| target in now.steps && target.stepId == id && target.status == Running && !LacksAttestation(target);
    }
    var j :| 0 <= j < |now.steps| && now.steps[j] == target;
    i := j;
    UniqueFind(now.steps, i);
  }

  /** An enabled action succeeds, keeps the invariant, and uses up its unit of work. */
  lemma EnabledStep(v: Validator, plan: Plan, now: Plan, completions: seq<string>, action: Action, clock: string)
    requires UniqueIds(plan.steps) && RunInv(plan, now, completions) && Enabled(v, now, action)
    ensures Perform(v, now, action, clock).Ok?
    ensures RunInv(plan, Perform(v, now, action, clock).value,
                   completions + if action.Complete? then [action.stepId] else [])
    ensures Work(Perform(v, now, action, clock).value.steps) + (if action.Attach? then 0 else 1) == Work(now.steps)
    ensures action.Complete? ==> forall d :: DependsOn(plan.steps, action.stepId, d) ==> d in completions
  {
    SameIds(plan, now);
    var i := EnabledTarget(v, now, action);
    assert now.steps[i] in now.steps;
    var s := Perform(v, now, action, clock).value.steps[i];
    assert completions + [] == completions;
    UpdateStep(plan, now, completions, i, s);
    UpdateWork(now.steps, i, s);
    if action.Complete? {
      forall d | DependsOn(plan.steps, action.stepId, d) ensures d in completions {
        CompletedDependency(now, i, d);
      }
    }
  }

  lemma CompletedDependency(now: Plan, i: nat, d: string)
    requires UniqueIds(now.steps) && i < |now.steps|
    requires DependenciesCompleted(now, now.steps[i]) && DependsOn(now.steps, now.steps[i].stepId, d)
    ensures d in CompletedIds(now.steps)
  {
    var t :| t in now.steps && t.stepId == now.steps[i].stepId && d in t.dependsOn;
    UniqueStep(now.steps, now.steps[i], t);
    assert CompletedIn(now, d);
  }

  lemma SingleWork(s: Step)
    ensures Work([s]) == Units(s.status)
  {
    assert DropLast([s]) == [];
  }

  lemma RunStarts(plan: Plan)
    requires FreshSteps(plan.steps)
    ensures RunInv(plan, plan, [])
    ensures Work(plan.steps) == 2 * |plan.steps|
  {
    FreshWork(plan.steps);
  }

  lemma {:induction false} FreshWork(steps: seq<Step>)
    requires forall s :: s in steps ==> s.status == Planned
    ensures Work(steps) == 2 * |steps|
  {
    if steps != [] {
      FreshWork(DropLast(steps));
    }
  }

  /** Everything an id depends on stands before it. */
  ghost predicate Topological(steps: seq<Step>, done: seq<string>) {
    forall i, d :: 0 <= i < |done| && DependsOn(steps, done[i], d) ==> d in done[..i]
  }

  lemma TopologicalAppend(steps: seq<Step>, done: seq<string>, id: string)
    requires Topological(steps, done)
    requires forall d :: DependsOn(steps, id, d) ==> d in done
    ensures Topological(steps, done + [id])
  {
    var longer := done + [id];
    forall i, d | 0 <= i < |longer| && DependsOn(steps, longer[i], d) ensures d in longer[..i] {
      if i < |done| {
        assert longer[..i] == done[..i];
      } else {
        assert longer[..i] == done;
      }
    }
  }

  /** Every action of a disciplined run succeeds; steps complete at most once, each after everything it
      depends on; and starts and completions never exceed two for each step. */
  lemma {:induction false} DisciplinedRun(v: Validator, plan: Plan, actions: seq<Action>, clock: string)
    requires FreshSteps(plan.steps) && Disciplined(v, plan, actions, clock)
    ensures RunInv(plan, Execute(v, plan, actions, clock), Completions(actions))
    ensures Work(Execute(v, plan, actions, clock).steps) + Progress(actions) == 2 * |plan.steps|
    ensures Topological(plan.steps, Completions(actions))
  {
    if actions == [] {
      RunStarts(plan);
    } else {
      var front, action := DropLast(actions), Last(actions);
      var done := Completions(front);
      DisciplinedRun(v, plan, front, clock);
      EnabledStep(v, plan, Execute(v, plan, front, clock), done, action, clock);
      if action.Complete? {
        TopologicalAppend(plan.steps, done, action.stepId);
      } else {
        assert Completions(actions) == done;
        assert done + [] == done;
      }
    }
  }

  // ---------------------------------------------------------------- progress

  /** A step that blocks this one and is itself still open. */
  lemma OpenDependency(plan: Plan, now: Plan, completions: seq<string>, id: string) returns (next: string)
    requires UniqueIds(plan.steps) && RunInv(plan, now, completions) && Resolvable(plan.steps)
    requires forall s :: s in now.steps ==> s.status != Running
    requires ListExecutable(now) == []
    requires id in Ids(now.steps) - CompletedIds(now.steps)
    ensures DependsOn(plan.steps, id, next)
    ensures next in Ids(now.steps) - CompletedIds(now.steps)
  {
    SameIds(plan, now);
    var s :| s in now.steps && s.stepId == id;
    FilterMembers(now.steps, IsExecutable(now));
    assert s.status == Planned;
    assert s !in ListExecutable(now);
    next :| next in s.dependsOn && !CompletedIn(now, next);
    assert DependsOn(now.steps, id, next);
  }

  lemma {:induction false} OpenWalk(plan: Plan, now: Plan, completions: seq<string>, id: string, n: nat)
    returns (walk: seq<string>)
    requires UniqueIds(plan.steps) && RunInv(plan, now, completions) && Resolvable(plan.steps)
    requires forall s :: s in now.steps ==> s.status != Running
    requires ListExecutable(now) == []
    requires id in Ids(now.steps) - CompletedIds(now.steps)
    ensures |walk| == n + 1 && IsWalk(plan.steps, walk)
    ensures forall x :: x in walk ==> x in Ids(now.steps) - CompletedIds(now.steps)
  {
    if n == 0 {
      walk := [id];
    } else {
      var front := OpenWalk(plan, now, completions, id, n - 1);
      var next := OpenDependency(plan, now, completions, Last(front));
      walk := front + [next];
      forall i | 0 <= i < |walk| - 1 ensures DependsOn(plan.steps, walk[i], walk[i + 1]) {
        if i < |front| - 1 {
          assert DependsOn(plan.steps, front[i], front[i + 1]);
        }
      }
    }
  }

  /** Never stuck: while a step is open, one is running or one is listed as executable. */
  lemma NeverStuck(plan: Plan, now: Plan, completions: seq<string>)
    requires UniqueIds(plan.steps) && RunInv(plan, now, completions)
    requires Resolvable(plan.steps) && Acyclic(plan.steps)
    ensures AllCompleted(now.steps) || ListExecutable(now) != [] || exists s :: s in now.steps && s.status == Running
  {
    if !AllCompleted(now.steps) && ListExecutable(now) == [] && !exists s :: s in now.steps && s.status == Running {
      SameIds(plan, now);
      var s :| s in now.steps && s.status != Completed;
      OpenIsNotCompleted(now.steps, s);
      var bound := Ids(now.steps) - CompletedIds(now.steps);
      var walk := OpenWalk(plan, now, completions, s.stepId, |bound|);
      Pigeonhole(walk, bound);
      RepeatedWalkIsCyclic(plan.steps, walk);
    }
  }

  lemma RepeatedWalkIsCyclic(steps: seq<Step>, walk: seq<string>)
    requires IsWalk(steps, walk) && !Distinct(walk)
    ensures !Acyclic(steps)
  {
    var i, j :| 0 <= i < j < |walk| && walk[i] == walk[j];
    var cycle := walk[i..j + 1];
    forall k | 0 <= k < |cycle| - 1 ensures DependsOn(steps, cycle[k], cycle[k + 1]) {
      assert DependsOn(steps, walk[i + k], walk[i + k + 1]);
    }
    assert IsWalk(steps, cycle) && cycle[0] == Last(cycle);
  }

  /** Nothing lacks an attestation, or the attestation layer accepts some reference. */
  ghost predicate CanAttest(v: Validator, steps: seq<Step>) {
    (forall s :: s in steps ==> !LacksAttestation(s)) || exists ref :: Accepts(v, ref)
  }

  /** Steps gain accepted references only, and complete only with the attestations they need. */
  ghost predicate Attested(v: Validator, plan: Plan, now: Plan) {
    && |now.steps| == |plan.steps|
    && forall i :: 0 <= i < |plan.steps| ==>
         && plan.steps[i].attestationRefs <= now.steps[i].attestationRefs
         && (now.steps[i].attestationRefs != plan.steps[i].attestationRefs ==> exists ref :: Accepts(v, ref))
         && (now.steps[i].status == Completed ==> !LacksAttestation(now.steps[i]))
  }

  lemma {:induction false} RunIsAttested(v: Validator, plan: Plan, actions: seq<Action>, clock: string)
    requires FreshSteps(plan.steps) && Disciplined(v, plan, actions, clock)
    ensures Attested(v, plan, Execute(v, plan, actions, clock))
  {
    if actions == [] {
      forall i | 0 <= i < |plan.steps| ensures plan.steps[i].status == Planned {
        assert plan.steps[i] in plan.steps;
      }
    } else {
      var front, action := DropLast(actions), Last(actions);
      var before := Execute(v, plan, front, clock);
      RunIsAttested(v, plan, front, clock);
      DisciplinedRun(v, plan, front, clock);
      SameIds(plan, before);
      StepIsAttested(v, plan, before, action, clock);
    }
  }

  lemma StepIsAttested(v: Validator, plan: Plan, now: Plan, action: Action, clock: string)
    requires UniqueIds(now.steps) && Enabled(v, now, action) && Attested(v, plan, now)
    ensures Perform(v, now, action, clock).Ok? && Attested(v, plan, Perform(v, now, action, clock).value)
  {
    var i := EnabledTarget(v, now, action);
    var next := Perform(v, now, action, clock).value;
    assert forall j :: 0 <= j < |now.steps| && j != i ==> next.steps[j] == now.steps[j];
  }

  /** A step that lacks an attestation lacked it from the start, so the layer must accept something. */
  lemma StillLacks(v: Validator, plan: Plan, actions: seq<Action>, clock: string, s: Step)
    requires FreshSteps(plan.steps) && Disciplined(v, plan, actions, clock) && CanAttest(v, plan.steps)
    requires s in Execute(v, plan, actions, clock).steps && LacksAttestation(s)
    ensures exists ref :: Accepts(v, ref)
  {
    var now := Execute(v, plan, actions, clock);
    RunIsAttested(v, plan, actions, clock);
    DisciplinedRun(v, plan, actions, clock);
    var i :| 0 <= i < |now.steps| && now.steps[i] == s;
    assert SameStep(s, plan.steps[i]) && LacksAttestation(plan.steps[i]);
    assert plan.steps[i] in plan.steps;
  }

  /** A run that completed everything attested what needed it. */
  lemma CompletedRunWasAttested(v: Validator, plan: Plan, actions: seq<Action>, clock: string)
    requires FreshSteps(plan.steps) && CompletesAll(v, plan, actions, clock)
    ensures CanAttest(v, plan.steps)
  {
    var now := Execute(v, plan, actions, clock);
    RunIsAttested(v, plan, actions, clock);
    DisciplinedRun(v, plan, actions, clock);
    if s :| s in plan.steps && LacksAttestation(s) {
      var i :| 0 <= i < |plan.steps| && plan.steps[i] == s;
      assert now.steps[i] in now.steps;
      assert SameStep(now.steps[i], s) && !LacksAttestation(now.steps[i]);
      assert now.steps[i].attestationRefs != plan.steps[i].attestationRefs;
    }
  }

  lemma ExtendRun(v: Validator, plan: Plan, actions: seq<Action>, action: Action, clock: string)
    requires FreshSteps(plan.steps) && Disciplined(v, plan, actions, clock)
    requires Enabled(v, Execute(v, plan, actions, clock), action)
    ensures Disciplined(v, plan, actions + [action], clock)
    ensures var now := Execute(v, plan, actions, clock);
            Perform(v, now, action, clock).Ok?
            && Execute(v, plan, actions + [action], clock) == Perform(v, now, action, clock).value
  {
    assert DropLast(actions + [action]) == actions;
    DisciplinedRun(v, plan, actions, clock);
    EnabledStep(v, plan, Execute(v, plan, actions, clock), Completions(actions), action, clock);
  }

  /** Attach a reference to a running step that lacks one. */
  lemma AttachFirst(v: Validator, plan: Plan, actions: seq<Action>, clock: string, s: Step)
    returns (longer: seq<Action>, t: Step)
    requires FreshSteps(plan.steps) && Disciplined(v, plan, actions, clock)
    requires s in Execute(v, plan, actions, clock).steps && s.status == Running
    requires exists ref :: Accepts(v, ref)
    ensures Disciplined(v, plan, longer, clock) && actions <= longer
    ensures t in Execute(v, plan, longer, clock).steps && t.stepId == s.stepId && t.status == Running
            && !LacksAttestation(t)
  {
    var now := Execute(v, plan, actions, clock);
    var ref :| Accepts(v, ref);
    var action := Attach(s.stepId, ref);
    assert Enabled(v, now, action);
    ExtendRun(v, plan, actions, action, clock);
    longer := actions + [action];
    DisciplinedRun(v, plan, actions, clock);
    SameIds(plan, now);
    var i :| 0 <= i < |now.steps| && now.steps[i] == s;
    UniqueFind(now.steps, i);
    t := Execute(v, plan, longer, clock).steps[i];
  }

  /** Complete a running step, attaching a reference first if it lacks one. */
  lemma FinishStep(v: Validator, plan: Plan, actions: seq<Action>, clock: string, s: Step) returns (longer: seq<Action>)
    requires FreshSteps(plan.steps) && Disciplined(v, plan, actions, clock)
    requires s in Execute(v, plan, actions, clock).steps && s.status == Running
    requires CanAttest(v, plan.steps)
    ensures Disciplined(v, plan, longer, clock) && actions <= longer
    ensures Work(Execute(v, plan, longer, clock).steps) < Work(Execute(v, plan, actions, clock).steps)
  {
    var ready, t := actions, s;
    if LacksAttestation(s) {
      StillLacks(v, plan, actions, clock, s);
      ready, t := AttachFirst(v, plan, actions, clock, s);
    }
    var action := Complete(s.stepId);
    assert Enabled(v, Execute(v, plan, ready, clock), action);
    ExtendRun(v, plan, ready, action, clock);
    longer := ready + [action];
    DisciplinedRun(v, plan, actions, clock);
    DisciplinedRun(v, plan, longer, clock);
    ProgressMonotone(actions, longer);
  }

  lemma {:induction false} ProgressMonotone(a: seq<Action>, b: seq<Action>)
    requires a <= b && b != a && Last(b).Complete?
    ensures Progress(a) < Progress(b)
  {
    if DropLast(b) != a {
      ProgressPrefix(a, DropLast(b));
    }
  }

  lemma {:induction false} ProgressPrefix(a: seq<Action>, b: seq<Action>)
    requires a <= b
    ensures Progress(a) <= Progress(b)
  {
    if a != b {
      ProgressPrefix(a, DropLast(b));
    }
  }

  /** Start a listed step. */
  lemma BeginStep(v: Validator, plan: Plan, actions: seq<Action>, clock: string) returns (longer: seq<Action>)
    requires FreshSteps(plan.steps) && Disciplined(v, plan, actions, clock)
    requires ListExecutable(Execute(v, plan, actions, clock)) != []
    ensures Disciplined(v, plan, longer, clock) && actions <= longer
    ensures Work(Execute(v, plan, longer, clock).steps) < Work(Execute(v, plan, actions, clock).steps)
  {
    var now := Execute(v, plan, actions, clock);
    var s := ListExecutable(now)[0];
    assert s in ListExecutable(now);
    assert Enabled(v, now, Start(s.stepId));
    DisciplinedRun(v, plan, actions, clock);
    EnabledStep(v, plan, now, Completions(actions), Start(s.stepId), clock);
    ExtendRun(v, plan, actions, Start(s.stepId), clock);
    longer := actions + [Start(s.stepId)];
  }

  /** Any disciplined run can be driven on until every step is completed. */
  lemma {:induction false} RunToCompletion(v: Validator, plan: Plan, actions: seq<Action>, clock: string)
    returns (full: seq<Action>)
    requires FreshSteps(plan.steps) && Resolvable(plan.steps) && Acyclic(plan.steps) && CanAttest(v, plan.steps)
    requires Disciplined(v, plan, actions, clock)
    ensures Disciplined(v, plan, full, clock) && actions <= full
    ensures AllCompleted(Execute(v, plan, full, clock).steps)
    decreases Work(Execute(v, plan, actions, clock).steps)
  {
    var now := Execute(v, plan, actions, clock);
    if AllCompleted(now.steps) {
      full := actions;
    } else {
      var longer := Advance(v, plan, actions, clock);
      full := RunToCompletion(v, plan, longer, clock);
    }
  }

  lemma Advance(v: Validator, plan: Plan, actions: seq<Action>, clock: string) returns (longer: seq<Action>)
    requires FreshSteps(plan.steps) && Resolvable(plan.steps) && Acyclic(plan.steps) && CanAttest(v, plan.steps)
    requires Disciplined(v, plan, actions, clock) && !AllCompleted(Execute(v, plan, actions, clock).steps)
    ensures Disciplined(v, plan, longer, clock) && actions <= longer
    ensures Work(Execute(v, plan, longer, clock).steps) < Work(Execute(v, plan, actions, clock).steps)
  {
    var now := Execute(v, plan, actions, clock);
    DisciplinedRun(v, plan, actions, clock);
    NeverStuck(plan, now, Completions(actions));
    if ListExecutable(now) != [] {
      longer := BeginStep(v, plan, actions, clock);
    } else {
      var s :| s in now.steps && s.status == Running;
      longer := FinishStep(v, plan, actions, clock, s);
    }
  }

  /** Completing the plan succeeds once all steps are completed, unless the plan waits on somebody. */
  lemma CompletedRunCompletesPlan(v: Validator, plan: Plan, actions: seq<Action>, clock: string)
    requires FreshSteps(plan.steps) && Disciplined(v, plan, actions, clock)
    requires AllCompleted(Execute(v, plan, actions, clock).steps)
    ensures CompletePlan(Execute(v, plan, actions, clock), clock).Ok? <==> !PlanIsWaiting(plan)
    ensures multiset(Completions(actions)) == multiset(Ids(plan.steps))
    ensures Progress(actions) == 2 * |plan.steps|
  {
    DisciplinedRun(v, plan, actions, clock);
    var now := Execute(v, plan, actions, clock);
    SameIds(plan, now);
    AllCompletedIds(now.steps);
    DistinctMultiset(Completions(actions), Ids(plan.steps));
    NoWork(now.steps);
  }

  lemma AllCompletedIds(steps: seq<Step>)
    requires AllCompleted(steps)
    ensures CompletedIds(steps) == Ids(steps)
  {
  }

  lemma {:induction false} NoWork(steps: seq<Step>)
    requires AllCompleted(steps)
    ensures Work(steps) == 0
  {
    if steps != [] {
      NoWork(DropLast(steps));
    }
  }

  lemma DistinctMultiset(s: seq<string>, elements: set<string>)
    requires Distinct(s) && forall x :: x in s <==> x in elements
    ensures multiset(s) == multiset(elements)
  {
    forall x ensures multiset(s)[x] == multiset(elements)[x] {
      DistinctCounts(s, x);
    }
  }

  /** In a run that completed everything, ids further along a walk completed earlier. */
  lemma {:induction false} WalkGoesBack(plan: Plan, done: seq<string>, walk: seq<string>, i: nat)
    requires Distinct(done)
    requires Topological(plan.steps, done)
    requires IsWalk(plan.steps, walk) && |walk| >= 2 && i < |done| && done[i] == walk[0]
    ensures Last(walk) in done[..i]
  {
    assert DependsOn(plan.steps, walk[0], walk[1]);
    var j :| 0 <= j < i && done[j] == walk[1];
    if |walk| > 2 {
      var rest := walk[1..];
      forall k | 0 <= k < |rest| - 1 ensures DependsOn(plan.steps, rest[k], rest[k + 1]) {
        assert DependsOn(plan.steps, walk[k + 1], walk[k + 2]);
      }
      WalkGoesBack(plan, done, rest, j);
    }
  }

  lemma CompletedRunMeansAcyclic(v: Validator, plan: Plan, actions: seq<Action>, clock: string)
    requires FreshSteps(plan.steps) && Disciplined(v, plan, actions, clock)
    requires AllCompleted(Execute(v, plan, actions, clock).steps)
    ensures Resolvable(plan.steps) && Acyclic(plan.steps)
  {
    DisciplinedRun(v, plan, actions, clock);
    var now := Execute(v, plan, actions, clock);
    var done := Completions(actions);
    SameIds(plan, now);
    AllCompletedIds(now.steps);
    forall a, b | DependsOn(plan.steps, a, b) ensures b in Ids(plan.steps) {
      assert a in Ids(plan.steps);
      var i :| 0 <= i < |done| && done[i] == a;
    }
    forall walk | IsWalk(plan.steps, walk) && |walk| >= 2 ensures walk[0] != Last(walk) {
      assert DependsOn(plan.steps, walk[0], walk[1]);
      assert walk[0] in Ids(plan.steps);
      var i :| 0 <= i < |done| && done[i] == walk[0];
      WalkGoesBack(plan, done, walk, i);
    }
  }

  ghost predicate CompletesAll(v: Validator, plan: Plan, actions: seq<Action>, clock: string) {
    Disciplined(v, plan, actions, clock) && AllCompleted(Execute(v, plan, actions, clock).steps)
  }

  /** Exactly the plans with resolvable and acyclic dependencies can be run to completion, given that no step lacks an
      attestation or the attestation layer accepts some reference. */
  lemma CompletableIffAcyclic(v: Validator, plan: Plan, clock: string)
    requires FreshSteps(plan.steps)
    ensures (exists actions :: CompletesAll(v, plan, actions, clock)) <==>
            Resolvable(plan.steps) && Acyclic(plan.steps) && CanAttest(v, plan.steps)
  {
    if Resolvable(plan.steps) && Acyclic(plan.steps) && CanAttest(v, plan.steps) {
      var actions := RunToCompletion(v, plan, [], clock);
      assert CompletesAll(v, plan, actions, clock);
    } else {
      forall actions ensures !CompletesAll(v, plan, actions, clock) {
        if CompletesAll(v, plan, actions, clock) {
          CompletedRunMeansAcyclic(v, plan, actions, clock);
          CompletedRunWasAttested(v, plan, actions, clock);
        }
      }
    }
  }

  lemma IndependentStepsAreAcyclic(steps: seq<Step>)
    requires forall a, b :: !DependsOn(steps, a, b)
    ensures Acyclic(steps) && Resolvable(steps)
  {
    forall walk | |walk| >= 2 ensures !IsWalk(steps, walk) {
      assert !DependsOn(steps, walk[0], walk[1]);
    }
  }

  /** An acyclic plan that can never complete: one step that must attest, under a layer that accepts nothing. */
  lemma NothingAcceptedNothingCompleted(v: Validator, planId: string, stepId: string, createdAt: string, clock: string)
    requires forall ref :: !Accepts(v, ref)
    ensures var step := Step(stepId, EmitAttestation, Planned, [], [], false, false, None, None, None);
            var plan := Plan(planId, [step], PlannedPlan, createdAt, None);
            && FreshSteps(plan.steps) && Resolvable(plan.steps) && Acyclic(plan.steps)
            && forall actions :: !CompletesAll(v, plan, actions, clock)
  {
    var step := Step(stepId, EmitAttestation, Planned, [], [], false, false, None, None, None);
    var plan := Plan(planId, [step], PlannedPlan, createdAt, None);
    assert step in plan.steps && LacksAttestation(step);
    IndependentStepsAreAcyclic(plan.steps);
    CompletableIffAcyclic(v, plan, clock);
  }
}
