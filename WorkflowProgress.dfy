/**
 * The workflow progress bar shown on every page
 * (src/components/ui/WorkflowProgressIndicator.jsx): the current step from
 * the route, each step's status, the connector between steps and the
 * progress fraction.
 */
module WorkflowProgress {
  import opened Text

  datatype WorkflowStep = WorkflowStep(id: string, title: string, path: string)

  const WorkflowSteps: seq<WorkflowStep> := [
    WorkflowStep("call", "Active Call", "/emergency-call-interface"),
    WorkflowStep("guidance", "Medical Guidance", "/first-aid-guidance"),
    WorkflowStep("dispatch", "Dispatch", "/ambulance-dispatch")
  ]

  /** `findIndex(step => step.path === pathname)` over a table, `None` for -1. */
  function FindPath(steps: seq<WorkflowStep>, pathname: string): (r: Option<nat>)
    ensures r.Some? ==>
      && r.value < |steps| && steps[r.value].path == pathname
      && forall j :: 0 <= j < r.value ==> steps[j].path != pathname
    ensures r.None? ==> forall j :: 0 <= j < |steps| ==> steps[j].path != pathname
  {
    if steps == [] then None
    else if steps[0].path == pathname then Some(0)
    else match FindPath(steps[1..], pathname)
      case None => None
      case Some(i) => Some(i + 1)
  }

  /** `getCurrentStepIndex`: an unknown route counts as the first step. */
  function CurrentStepIndex(pathname: string): nat
  {
    match FindPath(WorkflowSteps, pathname)
    case None => 0
    case Some(i) => i
  }

  /** The index is always a valid step: the route's own step, or the first one for any other route. */
  lemma CurrentStepIndexInRange(pathname: string)
    ensures CurrentStepIndex(pathname) < |WorkflowSteps|
    ensures WorkflowSteps[CurrentStepIndex(pathname)].path == pathname
            || (CurrentStepIndex(pathname) == 0 && forall j :: 0 <= j < |WorkflowSteps| ==> WorkflowSteps[j].path != pathname)
  {
  }

  /** Each workflow page finds its own step. */
  lemma PagesFindTheirSteps()
    ensures CurrentStepIndex("/emergency-call-interface") == 0
    ensures CurrentStepIndex("/first-aid-guidance") == 1
    ensures CurrentStepIndex("/ambulance-dispatch") == 2
  {
  }

  datatype StepStatus = Completed | Active | Pending

  /** `getStepStatus` */
  function StepStatusOf(stepIndex: int, current: int): StepStatus
  {
    if stepIndex < current then Completed
    else if stepIndex == current then Active
    else Pending
  }

  /** On any route exactly one step is active, the ones before it are completed and the ones after pending. */
  lemma OneActiveStep(pathname: string, i: nat)
    requires i < |WorkflowSteps|
    ensures var cur := CurrentStepIndex(pathname);
      && (StepStatusOf(i, cur) == Active <==> i == cur)
      && (StepStatusOf(i, cur) == Completed <==> i < cur)
      && (StepStatusOf(i, cur) == Pending <==> cur < i)
  {
  }

  /** The connector after step `index` is highlighted when `index < currentStepIndex`. */
  function ConnectorHighlighted(index: int, current: int): bool
  {
    index < current
  }

  /** A connector is highlighted exactly when the step before it is completed. */
  lemma ConnectorFollowsCompletion(index: int, current: int)
    ensures ConnectorHighlighted(index, current) <==> StepStatusOf(index, current) == Completed
  {
  }

  /** "Step N of 3" on small screens. */
  function StepLabel(pathname: string): string
  {
    "Step " + NatToString(CurrentStepIndex(pathname) + 1) + " of " + NatToString(|WorkflowSteps|)
  }

  /** `(currentStepIndex + 1) / workflowSteps.length`, the filled part of the bar. */
  function ProgressFraction(pathname: string): (r: real)
    ensures 0.0 < r <= 1.0
    ensures r == 1.0 <==> CurrentStepIndex(pathname) == |WorkflowSteps| - 1
  {
    (CurrentStepIndex(pathname) + 1) as real / |WorkflowSteps| as real
  }
}
