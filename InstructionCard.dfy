/**
 * The instruction card of the first-aid page
 * (src/pages/first-aid-guidance/components/InstructionCard.jsx): the step
 * icon and style, the playback counter and its `m:ss` display, and the
 * navigation button rules.
 */
module InstructionCard {
  import opened Text
  import opened FirstAid

  /** `getStepIcon`: a missing step icon is the empty string here. */
  function StepIcon(isCompleted: bool, isActive: bool, icon: string): string
  {
    if isCompleted then "CheckCircle"
    else if isActive then (if icon != [] then icon else "Circle")
    else "Circle"
  }

  datatype StepStyle = Success | Primary | Muted

  /** `getStepStatus`, reduced to which of the three styles is chosen. */
  function StepStatus(isCompleted: bool, isActive: bool): StepStyle
  {
    if isCompleted then Success
    else if isActive then Primary
    else Muted
  }

  /**
   * Icon and style follow the same precedence: the check mark exactly with the
   * success style, the step's own icon only with the primary style.
   */
  lemma IconAgreesWithStatus(isCompleted: bool, isActive: bool, icon: string)
    requires icon != "CheckCircle" && icon != "Circle"
    ensures StepIcon(isCompleted, isActive, icon) == "CheckCircle" <==> StepStatus(isCompleted, isActive) == Success
    ensures icon != [] ==> (StepIcon(isCompleted, isActive, icon) == icon <==> StepStatus(isCompleted, isActive) == Primary)
    ensures StepStatus(isCompleted, isActive) == Muted ==> StepIcon(isCompleted, isActive, icon) == "Circle"
  {
  }

  // ---------------------------------------------------------------------------
  // Playback counter

  class Playback {
    var isPlaying: bool
    var playbackTime: nat

    ghost predicate Valid()
      reads this
    {
      !isPlaying ==> playbackTime == 0
    }

    constructor ()
      ensures Valid() && !isPlaying && playbackTime == 0
    {
      isPlaying := false;
      playbackTime := 0;
    }

    /** `handleVoicePlay`: playing starts; a counter already running keeps its value. */
    method Play()
      modifies this
      requires Valid()
      ensures Valid() && isPlaying && playbackTime == old(playbackTime)
    {
      isPlaying := true;
    }

    /** One firing of the one-second interval, which only runs while playing. */
    method Tick()
      modifies this
      requires Valid()
      ensures Valid() && isPlaying == old(isPlaying)
      ensures playbackTime == if isPlaying then old(playbackTime) + 1 else old(playbackTime)
    {
      if isPlaying {
        playbackTime := playbackTime + 1;
      }
    }

    /** The playback timeout firing: playing stops and the effect resets the counter. */
    method Finish()
      modifies this
      ensures Valid() && !isPlaying && playbackTime == 0
    {
      isPlaying := false;
      playbackTime := 0;
    }
  }

  // ---------------------------------------------------------------------------
  // The `m:ss` display

  /** `s.padStart(2, '0')` */
  function PadTwo(s: string): (r: string)
    ensures |r| == if |s| >= 2 then |s| else 2
  {
    if |s| >= 2 then s else seq(2 - |s|, _ => '0') + s
  }

  /** `Math.floor(t / 60) + ":" + (t % 60).toString().padStart(2, '0')` */
  function FormatTimer(t: nat): string
  {
    NatToString(t / 60) + ":" + PadTwo(NatToString(t % 60))
  }

  /** The position of the first `:`, if any. */
  function IndexOfColon(s: string): (r: Option<nat>)
    ensures r.Some? ==> r.value < |s| && s[r.value] == ':' && forall j :: 0 <= j < r.value ==> s[j] != ':'
    ensures r.None? ==> forall j :: 0 <= j < |s| ==> s[j] != ':'
  {
    if s == [] then None
    else if s[0] == ':' then Some(0)
    else match IndexOfColon(s[1..])
      case None => None
      case Some(i) => Some(i + 1)
  }

  /** Reading a display back: minutes, a colon, then exactly two digits below 60. */
  function ParseTimer(s: string): Option<nat>
  {
    match IndexOfColon(s)
    case None => None
    case Some(i) =>
      var minutes := s[..i];
      var seconds := s[i + 1..];
      if minutes == [] || !AllDigits(minutes) || |seconds| != 2 || !AllDigits(seconds) then None
      else if DigitsValue(seconds) >= 60 then None
      else Some(DigitsValue(minutes) * 60 + DigitsValue(seconds))
  }

  lemma {:induction false} DigitsValueLeadingZero(s: string)
    requires AllDigits(s)
    ensures AllDigits("0" + s) && DigitsValue("0" + s) == DigitsValue(s)
    decreases |s|
  {
    if s != [] {
      var init := s[..|s| - 1];
      DigitsValueLeadingZero(init);
      assert ("0" + s)[..|"0" + s| - 1] == "0" + init;
    }
  }

  /** The two-digit seconds field reads back as the seconds. */
  lemma SecondsField(k: nat)
    requires k < 60
    ensures var f := PadTwo(NatToString(k)); |f| == 2 && AllDigits(f) && DigitsValue(f) == k
  {
    var d := NatToString(k);
    if k < 10 {
      assert d == [DigitChar(k)];
      assert PadTwo(d) == "0" + d;
      DigitsValueLeadingZero(d);
    } else {
      assert d == NatToString(k / 10) + [DigitChar(k % 10)];
      assert NatToString(k / 10) == [DigitChar(k / 10)];
    }
  }

  /** Parsing the display gives back the elapsed seconds. */
  lemma TimerRoundTrip(t: nat)
    ensures ParseTimer(FormatTimer(t)) == Some(t)
  {
    var m := NatToString(t / 60);
    var f := PadTwo(NatToString(t % 60));
    SecondsField(t % 60);
    var s := FormatTimer(t);
    assert s == m + ":" + f;
    assert forall j :: 0 <= j < |m| ==> s[j] == m[j] && IsDigit(m[j]);
    assert s[|m|] == ':';
    assert IndexOfColon(s) == Some(|m|);
    assert s[..|m|] == m;
    assert s[|m| + 1..] == f;
  }

  // ---------------------------------------------------------------------------
  // Navigation buttons and the progress bar

  /** The "Previous Step" button is disabled on step number 1. */
  function PreviousDisabled(step: Step): bool
  {
    step.number == 1
  }

  function NextLabel(step: Step): string
  {
    if step.isLast then "Complete Protocol" else "Next Step"
  }

  /**
   * On the CPR protocol the buttons tell the truth about the page: Previous is
   * disabled exactly when pressing it would change nothing, and the Next button
   * reads "Complete Protocol" exactly when pressing it leaves for dispatch.
   */
  lemma ButtonsMatchStepping(p: Progress)
    requires Stepping(p, |CprSteps|)
    ensures FindStep(CprSteps, p.currentStep).Some?
    ensures var step := FindStep(CprSteps, p.currentStep).value;
      && (PreviousDisabled(step) <==> PreviousStep(p) == p)
      && (NextLabel(step) == "Complete Protocol" <==> NextStep(p, |CprSteps|).1)
  {
    CprLastStep(p.currentStep);
  }

  lemma ProductOfPositives(x: real, y: real)
    requires x > 0.0 && y > 0.0
    ensures x * y > 0.0
  {
  }

  lemma QuotientAtMostOne(a: real, b: real)
    requires 0.0 <= a && 0.0 < b
    ensures a <= b ==> a / b <= 1.0
  {
    var q := a / b;
    assert q * b == a;
    if a <= b && q > 1.0 {
      ProductOfPositives(q - 1.0, b);
    }
  }

  /** `playbackTime / (estimatedDuration || 30) * 100`, the width of the bar in percent. */
  function PlaybackPercent(playbackTime: nat, estimatedDuration: nat): (r: real)
    ensures r >= 0.0
    ensures estimatedDuration == 0 ==> r == playbackTime as real / 30.0 * 100.0
    ensures playbackTime <= (if estimatedDuration == 0 then 30 else estimatedDuration) ==> r <= 100.0
  {
    var duration := if estimatedDuration == 0 then 30 else estimatedDuration;
    var fraction := playbackTime as real / duration as real;
    assert fraction * duration as real == playbackTime as real;
    assert fraction >= 0.0;
    assert playbackTime <= duration ==> fraction <= 1.0 by {
      QuotientAtMostOne(playbackTime as real, duration as real);
    }
    fraction * 100.0
  }
}
