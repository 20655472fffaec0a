/**
 * The progress panel of the first-aid page
 * (src/pages/first-aid-guidance/components/ProgressTracker.jsx): the
 * percentage, the remaining count, the step timeline and the caller
 * responsiveness badge, all derived from the stepping state.
 */
module ProgressTracker {
  import opened Text
  import opened FirstAid

  /**
   * `(completedSteps.length / totalSteps) * 100`; `None` stands for the
   * `NaN` a protocol without steps gives.
   */
  function ProgressPercentage(completed: seq<int>, totalSteps: nat): (r: Option<real>)
    ensures r.None? <==> totalSteps == 0
    ensures r.Some? && |completed| <= totalSteps ==> 0.0 <= r.value <= 100.0
  {
    if totalSteps == 0 then None
    else Some((|completed| as real / totalSteps as real) * 100.0)
  }

  /** Under the stepping invariant the percentage counts the steps before the current one. */
  lemma PercentageUnderStepping(p: Progress, n: nat)
    requires Stepping(p, n) && n >= 1
    ensures ProgressPercentage(p.completedSteps, n) == Some(((p.currentStep - 1) as real / n as real) * 100.0)
    ensures 0.0 <= ProgressPercentage(p.completedSteps, n).value < 100.0
  {
  }

  /** The "Steps left" figure. */
  function Remaining(totalSteps: int, currentStep: int): int
  {
    totalSteps - currentStep
  }

  /** Under the stepping invariant the remaining count lies between 0 and `n - 1`. */
  lemma RemainingUnderStepping(p: Progress, n: nat)
    requires Stepping(p, n) && n >= 1
    ensures 0 <= Remaining(n, p.currentStep) <= n - 1
    ensures Remaining(n, p.currentStep) == 0 <==> p.currentStep == n
  {
  }

  datatype EntryStatus = Done | Active | Pending

  /** Done takes precedence over Active, which takes precedence over Pending. */
  function EntryStatusOf(stepNumber: int, currentStep: int, completedSteps: seq<int>): EntryStatus
  {
    if stepNumber in completedSteps then Done
    else if stepNumber == currentStep then Active
    else Pending
  }

  datatype Entry = Entry(stepNumber: int, status: EntryStatus)

  /** `Array.from({ length: totalSteps }, …)`: one entry per step, numbered from 1. */
  function Timeline(totalSteps: nat, currentStep: int, completedSteps: seq<int>): (r: seq<Entry>)
    ensures |r| == totalSteps
    ensures forall i :: 0 <= i < |r| ==> r[i].stepNumber == i + 1
    ensures forall i :: 0 <= i < |r| ==> (r[i].status == Done <==> i + 1 in completedSteps)
  {
    seq(totalSteps, i requires 0 <= i < totalSteps => Entry(i + 1, EntryStatusOf(i + 1, currentStep, completedSteps)))
  }

  /**
   * Under the stepping invariant the timeline reads Done before the current
   * step, Active on it and Pending after it, so exactly one entry is Active.
   */
  lemma TimelineUnderStepping(p: Progress, n: nat, i: nat)
    requires Stepping(p, n) && n >= 1 && i < n
    ensures Timeline(n, p.currentStep, p.completedSteps)[i].status ==
              if i + 1 < p.currentStep then Done
              else if i + 1 == p.currentStep then Active
              else Pending
  {
    if i + 1 < p.currentStep {
      assert p.completedSteps[i] == i + 1;
    }
  }

  lemma OneActiveEntry(p: Progress, n: nat, i: nat, j: nat)
    requires Stepping(p, n) && n >= 1 && i < n && j < n
    requires Timeline(n, p.currentStep, p.completedSteps)[i].status == Active
    requires Timeline(n, p.currentStep, p.completedSteps)[j].status == Active
    ensures i == j
  {
    TimelineUnderStepping(p, n, i);
    TimelineUnderStepping(p, n, j);
  }

  datatype Responsiveness = Excellent | Good | Fair | Poor | Unknown

  /** `getResponsivenessConfig`: the level is compared after lower-casing; anything else gets the muted badge. */
  function ResponsivenessOf(level: Option<string>): Responsiveness
  {
    match level
    case None => Unknown
    case Some(l) =>
      var k := Lower(l);
      if k == "excellent" then Excellent
      else if k == "good" then Good
      else if k == "fair" then Fair
      else if k == "poor" then Poor
      else Unknown
  }

  /** The lookup does not depend on case. */
  lemma ResponsivenessIgnoresCase(level: string)
    ensures ResponsivenessOf(Some(level)) == ResponsivenessOf(Some(Lower(level)))
  {
    LowerIsLower(level);
    LowerOfLowerIsIdentity(Lower(level));
  }

  /** The page passes "Good", which gets the primary badge. */
  lemma PageResponsivenessIsGood()
    ensures ResponsivenessOf(Some("Good")) == Good
  {
    assert Lower("Good") == "good";
  }
}
