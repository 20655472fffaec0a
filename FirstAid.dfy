/**
 * The first-aid guidance page (src/pages/first-aid-guidance/index.jsx):
 * stepping through the active protocol's instructions, the reset on a
 * protocol change, voice commands and the audio flag.
 */
module FirstAid {
  import opened Text

  /** One instruction of a protocol; the instruction texts and detail lists are not modelled. */
  datatype Step = Step(number: int, title: string, icon: string, estimatedDuration: nat, priority: string, isLast: bool)

  /** The only protocol with steps in the page's table. */
  const CprSteps: seq<Step> := [
    Step(1, "Check Responsiveness", "User", 15, "CRITICAL", false),
    Step(2, "Call for Help", "Phone", 30, "CRITICAL", false),
    Step(3, "Position the Person", "Move", 20, "CRITICAL", false),
    Step(4, "Hand Placement", "Hand", 15, "CRITICAL", false),
    Step(5, "Begin Chest Compressions", "Activity", 120, "CRITICAL", true)
  ]

  /** `protocolSteps?.[activeProtocol] || []` */
  function ProtocolSteps(protocol: string): (r: seq<Step>)
    ensures protocol != "cpr" ==> r == []
  {
    if protocol == "cpr" then CprSteps else []
  }

  /** `steps.find(step => step.number === n)` */
  function FindStep(steps: seq<Step>, n: int): (r: Option<Step>)
    ensures r.Some? ==> r.value in steps && r.value.number == n
    ensures r.None? ==> forall i :: 0 <= i < |steps| ==> steps[i].number != n
  {
    if steps == [] then None
    else if steps[0].number == n then Some(steps[0])
    else FindStep(steps[1..], n)
  }

  /** Steps numbered 1, 2, …, in order. */
  predicate NumberedInOrder(steps: seq<Step>)
  {
    forall i :: 0 <= i < |steps| ==> steps[i].number == i + 1
  }

  /** In a table numbered in order, step `n` is found exactly when `1 <= n <= |steps|`, at index `n - 1`. */
  lemma {:induction false} FindNumberedStep(steps: seq<Step>, n: int)
    requires NumberedInOrder(steps)
    ensures FindStep(steps, n).Some? <==> 1 <= n <= |steps|
    ensures 1 <= n <= |steps| ==> FindStep(steps, n) == Some(steps[n - 1])
  {
    if 1 <= n <= |steps| {
      FindFirstNumbered(steps, n, n - 1);
    }
  }

  lemma {:induction false} FindFirstNumbered(steps: seq<Step>, n: int, i: nat)
    requires i < |steps| && steps[i].number == n
    requires forall j :: 0 <= j < i ==> steps[j].number != n
    ensures FindStep(steps, n) == Some(steps[i])
    decreases i
  {
    if i > 0 {
      FindFirstNumbered(steps[1..], n, i - 1);
    }
  }

  lemma CprStepsNumberedInOrder()
    ensures NumberedInOrder(CprSteps)
  {
  }

  /** An unknown protocol has no steps, so there is no current step to show. */
  lemma {:induction false} UnknownProtocolHasNoStep(protocol: string, n: int)
    requires protocol != "cpr"
    ensures ProtocolSteps(protocol) == [] && FindStep(ProtocolSteps(protocol), n) == None
  {
  }

  /** Only the last CPR step carries `isLast`. */
  lemma {:induction false} CprLastStep(n: int)
    requires 1 <= n <= |CprSteps|
    ensures FindStep(CprSteps, n).Some?
    ensures FindStep(CprSteps, n).value.isLast <==> n == |CprSteps|
  {
    CprStepsNumberedInOrder();
    FindNumberedStep(CprSteps, n);
  }

  // ---------------------------------------------------------------------------
  // Stepping

  /** The stepping part of the page state. */
  datatype Progress = Progress(currentStep: int, completedSteps: seq<int>, callerConfirmed: bool)

  /** `[lo, lo + 1, …, hi - 1]` */
  function Range(lo: int, hi: int): (r: seq<int>)
    ensures |r| == if lo <= hi then hi - lo else 0
    ensures forall i :: 0 <= i < |r| ==> r[i] == lo + i
    decreases hi - lo
  {
    if lo >= hi then [] else [lo] + Range(lo + 1, hi)
  }

  /** `completedSteps.filter(step => step !== x)` */
  function Without(s: seq<int>, x: int): (r: seq<int>)
    ensures x !in r
    ensures forall y :: y in r <==> y in s && y != x
  {
    if s == [] then []
    else if s[0] == x then Without(s[1..], x)
    else [s[0]] + Without(s[1..], x)
  }

  /** The state the protocol-change effect leaves. */
  const Reset: Progress := Progress(1, [], false)

  /** `handleNextStep` on a protocol with `n` steps; the flag says whether the page navigates to dispatch. */
  function NextStep(p: Progress, n: int): (Progress, bool)
  {
    if p.currentStep < n then
      (Progress(p.currentStep + 1, p.completedSteps + [p.currentStep], false), false)
    else (p, true)
  }

  /** `handlePreviousStep` */
  function PreviousStep(p: Progress): Progress
  {
    if p.currentStep > 1 then
      Progress(p.currentStep - 1, Without(p.completedSteps, p.currentStep - 1), false)
    else p
  }

  /**
   * The stepping invariant: the current step is in range (or 1 on a protocol
   * without steps) and the completed steps are exactly those before it.
   */
  predicate Stepping(p: Progress, n: int)
  {
    && 1 <= p.currentStep
    && (p.currentStep <= n || p.currentStep == 1)
    && p.completedSteps == Range(1, p.currentStep)
  }

  lemma ResetIsStepping(n: int)
    ensures Stepping(Reset, n)
  {
  }

  /** Next: the current step is appended and the step advances, or at the last step nothing changes and the page navigates. */
  lemma NextKeepsStepping(p: Progress, n: int)
    requires Stepping(p, n)
    ensures Stepping(NextStep(p, n).0, n)
    ensures p.currentStep < n ==> NextStep(p, n).0.completedSteps == p.completedSteps + [p.currentStep] && !NextStep(p, n).1
    ensures p.currentStep >= n ==> NextStep(p, n) == (p, true)
  {
    if p.currentStep < n {
      RangeSnoc(1, p.currentStep);
    }
  }

  lemma {:induction false} RangeSnoc(lo: int, hi: int)
    requires lo <= hi
    ensures Range(lo, hi + 1) == Range(lo, hi) + [hi]
  {
  }

  /** Removing the last element of a range of distinct values by filtering shortens the range by one. */
  lemma {:induction false} WithoutLastOfRange(lo: int, hi: int)
    requires lo < hi
    ensures Without(Range(lo, hi), hi - 1) == Range(lo, hi - 1)
    decreases hi - lo
  {
    if lo + 1 < hi {
      WithoutLastOfRange(lo + 1, hi);
    } else {
      assert Range(lo, hi) == [lo];
    }
  }

  /** Previous: the step goes back and the step before it is no longer completed; at step 1 nothing changes. */
  lemma PreviousKeepsStepping(p: Progress, n: int)
    requires Stepping(p, n)
    ensures Stepping(PreviousStep(p), n)
    ensures p.currentStep == 1 ==> PreviousStep(p) == p
    ensures p.currentStep > 1 ==> PreviousStep(p).currentStep == p.currentStep - 1 && p.currentStep - 1 !in PreviousStep(p).completedSteps
  {
    if p.currentStep > 1 {
      WithoutLastOfRange(1, p.currentStep);
    }
  }

  /** Previous undoes a Next that advanced, up to the caller confirmation, which both clear. */
  lemma PreviousUndoesNext(p: Progress, n: int)
    requires Stepping(p, n) && p.currentStep < n
    ensures PreviousStep(NextStep(p, n).0) == p.(callerConfirmed := false)
  {
    RangeSnoc(1, p.currentStep);
    WithoutLastOfRange(1, p.currentStep + 1);
  }

  /** The last step is never among the completed steps. */
  lemma LastStepNeverCompleted(p: Progress, n: int)
    requires Stepping(p, n) && n >= 1
    ensures n !in p.completedSteps
  {
  }

  /** Any run of Next and Previous presses from the reset keeps the invariant. */
  function Press(p: Progress, n: int, forward: seq<bool>): Progress
    decreases |forward|
  {
    if forward == [] then p
    else Press(if forward[0] then NextStep(p, n).0 else PreviousStep(p), n, forward[1..])
  }

  lemma {:induction false} PressesKeepStepping(p: Progress, n: int, forward: seq<bool>)
    requires Stepping(p, n)
    ensures Stepping(Press(p, n, forward), n)
    decreases |forward|
  {
    if forward != [] {
      if forward[0] {
        NextKeepsStepping(p, n);
      } else {
        PreviousKeepsStepping(p, n);
      }
      PressesKeepStepping(if forward[0] then NextStep(p, n).0 else PreviousStep(p), n, forward[1..]);
    }
  }

  // ---------------------------------------------------------------------------
  // The page

  class Guidance {
    var activeProtocol: string
    var currentStep: int
    var completedSteps: seq<int>
    var callerConfirmed: bool
    var isAudioPlaying: bool
    var isVoiceListening: bool

    function State(): Progress
      reads this
    {
      Progress(currentStep, completedSteps, callerConfirmed)
    }

    function StepCount(): int
      reads this
    {
      |ProtocolSteps(activeProtocol)|
    }

    ghost predicate Valid()
      reads this
    {
      Stepping(State(), StepCount())
    }

    /** `currentStepData` */
    function CurrentStepData(): Option<Step>
      reads this
    {
      FindStep(ProtocolSteps(activeProtocol), currentStep)
    }

    /** The page opens on CPR; the mount effect leaves the reset state. */
    constructor ()
      ensures Valid()
      ensures activeProtocol == "cpr" && State() == Reset
      ensures !isAudioPlaying && !isVoiceListening
    {
      activeProtocol := "cpr";
      currentStep := 1;
      completedSteps := [];
      callerConfirmed := false;
      isAudioPlaying := false;
      isVoiceListening := false;
    }

    /** `handleProtocolChange` followed by the reset effect, which only runs when the protocol actually changes. */
    method ChangeProtocol(protocol: string)
      modifies this
      requires Valid()
      ensures Valid()
      ensures activeProtocol == protocol
      ensures protocol != old(activeProtocol) ==> State() == Reset
      ensures protocol == old(activeProtocol) ==> State() == old(State())
      ensures isAudioPlaying == old(isAudioPlaying) && isVoiceListening == old(isVoiceListening)
    {
      if protocol != activeProtocol {
        activeProtocol := protocol;
        currentStep := 1;
        completedSteps := [];
        callerConfirmed := false;
      }
    }

    /** `handleNextStep`; `navigate` says whether the page moves on to dispatch. */
    method Next() returns (navigate: bool)
      modifies this
      requires Valid()
      ensures Valid()
      ensures (State(), navigate) == NextStep(old(State()), StepCount())
      ensures activeProtocol == old(activeProtocol)
      ensures isAudioPlaying == old(isAudioPlaying) && isVoiceListening == old(isVoiceListening)
    {
      NextKeepsStepping(State(), StepCount());
      if currentStep < |ProtocolSteps(activeProtocol)| {
        completedSteps := completedSteps + [currentStep];
        currentStep := currentStep + 1;
        callerConfirmed := false;
        navigate := false;
      } else {
        navigate := true;
      }
    }

    /** `handlePreviousStep` */
    method Previous()
      modifies this
      requires Valid()
      ensures Valid()
      ensures State() == PreviousStep(old(State()))
      ensures activeProtocol == old(activeProtocol)
      ensures isAudioPlaying == old(isAudioPlaying) && isVoiceListening == old(isVoiceListening)
    {
      PreviousKeepsStepping(State(), StepCount());
      if currentStep > 1 {
        var before := currentStep;
        currentStep := currentStep - 1;
        completedSteps := Without(completedSteps, before - 1);
        callerConfirmed := false;
      }
    }

    /** `handleVoicePlay`: the audio flag goes up until its timeout fires. */
    method VoicePlay()
      modifies this
      ensures isAudioPlaying
      ensures State() == old(State()) && activeProtocol == old(activeProtocol) && isVoiceListening == old(isVoiceListening)
    {
      isAudioPlaying := true;
    }

    /** The playback timeout firing, and `handleStopInstruction`. */
    method StopAudio()
      modifies this
      ensures !isAudioPlaying
      ensures State() == old(State()) && activeProtocol == old(activeProtocol) && isVoiceListening == old(isVoiceListening)
    {
      isAudioPlaying := false;
    }

    /** `handlePlayInstruction`: plays only when there is a current step. */
    method PlayInstruction()
      modifies this
      ensures isAudioPlaying == (old(isAudioPlaying) || old(CurrentStepData()).Some?)
      ensures State() == old(State()) && activeProtocol == old(activeProtocol) && isVoiceListening == old(isVoiceListening)
    {
      if CurrentStepData().Some? {
        VoicePlay();
      }
    }

    /** `handleToggleVoiceListening` */
    method ToggleVoiceListening()
      modifies this
      ensures isVoiceListening == !old(isVoiceListening)
      ensures State() == old(State()) && activeProtocol == old(activeProtocol) && isAudioPlaying == old(isAudioPlaying)
    {
      isVoiceListening := !isVoiceListening;
    }

    /** The "Confirmed" and "Not Completed" buttons. */
    method SetCallerConfirmed(confirmed: bool)
      modifies this
      requires Valid()
      ensures Valid()
      ensures State() == old(State()).(callerConfirmed := confirmed)
      ensures activeProtocol == old(activeProtocol) && isAudioPlaying == old(isAudioPlaying) && isVoiceListening == old(isVoiceListening)
    {
      callerConfirmed := confirmed;
    }

    /**
     * `handleVoiceCommand`: `next` and `previous` act as the buttons, `play`
     * and `stop` set the audio flag, and every other command (including
     * `repeat`, `emergency` and `transfer`, which only log) changes nothing.
     */
    method VoiceCommand(command: string) returns (navigate: bool)
      modifies this
      requires Valid()
      ensures Valid()
      ensures activeProtocol == old(activeProtocol) && isVoiceListening == old(isVoiceListening)
      ensures command == "next" ==> (State(), navigate) == NextStep(old(State()), StepCount()) && isAudioPlaying == old(isAudioPlaying)
      ensures command == "previous" ==> State() == PreviousStep(old(State())) && !navigate && isAudioPlaying == old(isAudioPlaying)
      ensures command == "play" ==> State() == old(State()) && !navigate && isAudioPlaying
      ensures command == "stop" ==> State() == old(State()) && !navigate && !isAudioPlaying
      ensures command !in ["next", "previous", "play", "stop"] ==>
                State() == old(State()) && !navigate && isAudioPlaying == old(isAudioPlaying)
    {
      navigate := false;
      if command == "next" {
        navigate := Next();
      } else if command == "previous" {
        Previous();
      } else if command == "play" {
        VoicePlay();
      } else if command == "stop" {
        StopAudio();
      }
    }
  }
}
