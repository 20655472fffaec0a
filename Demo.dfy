/**
 * The interactive demo tour (src/pages/Demo.tsx): a current step over the
 * four demo steps, moved by clamped Previous/Next buttons, a step card click
 * or the start button, and the progress label and bar.
 */
module Demo {
  import opened Text

  const DemoSteps: seq<string> := ["Emergency Detection", "Route Optimization", "Traffic Management", "Patient Monitoring"]

  function Max(a: int, b: int): int { if a >= b then a else b }
  function Min(a: int, b: int): int { if a <= b then a else b }

  /** `Math.max(0, currentStep - 1)` */
  function PreviousStep(s: int): (r: int)
    ensures 0 <= s ==> 0 <= r <= s
    ensures 0 < s ==> r == s - 1
  {
    Max(0, s - 1)
  }

  /** `Math.min(length - 1, currentStep + 1)` */
  function NextStep(s: int, length: nat): (r: int)
    ensures 0 <= s < length ==> s <= r
    ensures s + 1 < length ==> r == s + 1
    ensures r <= length - 1
  {
    Min(length - 1, s + 1)
  }

  function PreviousDisabled(s: int): bool { s == 0 }

  function NextDisabled(s: int, length: nat): bool { s == length - 1 }

  /** Within range, each button is disabled exactly when pressing it would leave the step where it is. */
  lemma DisabledIffNoMove(s: int, length: nat)
    requires 0 <= s < length
    ensures PreviousDisabled(s) <==> PreviousStep(s) == s
    ensures NextDisabled(s, length) <==> NextStep(s, length) == s
  {
  }

  /** Next undoes Previous away from the first step, and Previous undoes Next away from the last. */
  lemma NextAndPreviousUndo(s: int, length: nat)
    requires 0 <= s < length
    ensures !PreviousDisabled(s) ==> NextStep(PreviousStep(s), length) == s
    ensures !NextDisabled(s, length) ==> PreviousStep(NextStep(s, length)) == s
  {
  }

  /** The label "N of M". */
  function ProgressLabel(s: nat, length: nat): string
  {
    NatToString(s + 1) + " of " + NatToString(length)
  }

  /** `(currentStep + 1) / demoSteps.length`, the filled part of the bar. */
  function ProgressFraction(s: nat, length: nat): (r: real)
    requires s < length
    ensures 0.0 < r <= 1.0
    ensures r == 1.0 <==> s == length - 1
  {
    (s + 1) as real / length as real
  }

  class Tour {
    var currentStep: int

    ghost predicate Valid()
      reads this
    {
      0 <= currentStep < |DemoSteps|
    }

    constructor ()
      ensures Valid() && currentStep == 0
    {
      currentStep := 0;
    }

    /** "Start Interactive Demo" */
    method Start()
      modifies this
      ensures Valid() && currentStep == 0
    {
      currentStep := 0;
    }

    /** Clicking the card of a step. */
    method SelectStep(index: nat)
      requires index < |DemoSteps|
      modifies this
      ensures Valid() && currentStep == index
    {
      currentStep := index;
    }

    method Previous()
      requires Valid()
      modifies this
      ensures Valid() && currentStep == PreviousStep(old(currentStep))
    {
      currentStep := Max(0, currentStep - 1);
    }

    method Next()
      requires Valid()
      modifies this
      ensures Valid() && currentStep == NextStep(old(currentStep), |DemoSteps|)
    {
      currentStep := Min(|DemoSteps| - 1, currentStep + 1);
    }

    function Fraction(): (r: real)
      requires Valid()
      reads this
      ensures 0.0 < r <= 1.0
    {
      ProgressFraction(currentStep, |DemoSteps|)
    }
  }

  /** Any run of button presses from a step in range stays in range. */
  function Press(s: int, forward: seq<bool>): int
    decreases |forward|
  {
    if forward == [] then s
    else Press(if forward[0] then NextStep(s, |DemoSteps|) else PreviousStep(s), forward[1..])
  }

  lemma {:induction false} PressesStayInRange(s: int, forward: seq<bool>)
    requires 0 <= s < |DemoSteps|
    ensures 0 <= Press(s, forward) < |DemoSteps|
    decreases |forward|
  {
    if forward != [] {
      PressesStayInRange(if forward[0] then NextStep(s, |DemoSteps|) else PreviousStep(s), forward[1..]);
    }
  }
}
