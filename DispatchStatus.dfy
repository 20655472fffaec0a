/**
 * The dispatch status card of the call screen
 * (src/pages/emergency-call-interface/components/DispatchStatus.jsx): the
 * four-stage status table, the effect that marks a dispatch, the stage
 * timeline, the arrival countdown and the button rules. Times are integer
 * milliseconds, as `Date` values are.
 */
module DispatchStatus {
  import opened Text

  datatype Stage = Standby | Dispatching | Dispatched | Arrived

  /** The keys of `statusConfig`, in declaration order. */
  const Keys: seq<string> := ["standby", "dispatching", "dispatched", "arrived"]

  function Key(s: Stage): string
  {
    match s
    case Standby => "standby"
    case Dispatching => "dispatching"
    case Dispatched => "dispatched"
    case Arrived => "arrived"
  }

  /** The stage a string names, if it is a key of the table. */
  function StageOf(status: string): (r: Option<Stage>)
    ensures r.Some? <==> status in Keys
    ensures r.Some? ==> Key(r.value) == status
  {
    if status == "standby" then Some(Standby)
    else if status == "dispatching" then Some(Dispatching)
    else if status == "dispatched" then Some(Dispatched)
    else if status == "arrived" then Some(Arrived)
    else None
  }

  /** `Object.keys(statusConfig).indexOf(status)`, -1 when absent. */
  function IndexOf(status: string): (r: int)
    ensures -1 <= r < |Keys|
    ensures r >= 0 ==> Keys[r] == status
    ensures r == -1 <==> status !in Keys
  {
    if status == "standby" then 0
    else if status == "dispatching" then 1
    else if status == "dispatched" then 2
    else if status == "arrived" then 3
    else -1
  }

  datatype Color = Muted | Warning | Primary | Success

  /** The `color` of each stage in the table. */
  function ColorOf(s: Stage): Color
  {
    match s
    case Standby => Muted
    case Dispatching => Warning
    case Dispatched => Primary
    case Arrived => Success
  }

  /** `getStatusClasses`, reduced to the colour chosen: an unknown status falls to the muted default. */
  function StatusStyle(status: string): Color
  {
    match StageOf(status)
    case None => Muted
    case Some(s) => ColorOf(s)
  }

  /** The style is muted exactly for standby and unknown statuses; the other three stages get distinct colours. */
  lemma StatusStyleOfKnownStages(status: string)
    ensures StatusStyle(status) == Muted <==> status !in ["dispatching", "dispatched", "arrived"]
    ensures forall s: Stage, t: Stage :: s != Standby && ColorOf(s) == ColorOf(t) ==> s == t
  {
  }

  // ---------------------------------------------------------------------------
  // Timeline

  datatype TimelineEntry = TimelineEntry(key: string, completed: bool, active: bool)

  /** One entry per stage: completed when at or before the current stage, active when it is the current one. */
  function Timeline(currentStatus: string): (r: seq<TimelineEntry>)
    ensures |r| == |Keys|
    ensures forall i :: 0 <= i < |r| ==>
      && r[i].key == Keys[i]
      && (r[i].completed <==> i <= IndexOf(currentStatus))
      && (r[i].active <==> Keys[i] == currentStatus)
  {
    seq(|Keys|, i requires 0 <= i < |Keys| =>
      TimelineEntry(Keys[i], IndexOf(currentStatus) >= i, currentStatus == Keys[i]))
  }

  /**
   * For a status in the table exactly one entry is active; it is completed
   * too, and the entries that show a check mark (completed, not active) are
   * exactly those before it.
   */
  lemma OneActiveStage(s: Stage)
    ensures var t := Timeline(Key(s)); var k := IndexOf(Key(s));
      && 0 <= k < |t| && t[k].active && t[k].completed
      && (forall i :: 0 <= i < |t| && i != k ==> !t[i].active)
      && (forall i :: 0 <= i < |t| ==> (t[i].completed && !t[i].active <==> i < k))
  {
    var t := Timeline(Key(s));
    var k := IndexOf(Key(s));
    forall i | 0 <= i < |t| && i != k
      ensures !t[i].active
    {
      assert Keys[i] != Keys[k];
    }
  }

  /** A status outside the table shows no stage as completed or active. */
  lemma UnknownStatusTimeline(status: string)
    requires status !in Keys
    ensures forall e :: e in Timeline(status) ==> !e.completed && !e.active
  {
  }

  // ---------------------------------------------------------------------------
  // Arrival countdown

  /** The effect sets the arrival six minutes ahead. */
  const ArrivalDelay: int := 6 * 60 * 1000

  /** `Math.max(0, Math.floor((date - now) / 1000 / 60))`, the whole minutes left. */
  function MinutesLeft(arrival: int, now: int): (r: nat)
    ensures arrival <= now ==> r == 0
    ensures arrival >= now ==> r * 60000 <= arrival - now < (r + 1) * 60000
  {
    var diff := (arrival - now) / 60000;
    if diff < 0 then 0 else diff
  }

  /** `formatETA`: "Calculating..." with no arrival, otherwise the minutes left. */
  function EtaText(arrival: Option<int>, now: int): string
  {
    match arrival
    case None => "Calculating..."
    case Some(a) => NatToString(MinutesLeft(a, now)) + " min"
  }

  /** The number at the front of the text is the clamped minute count. */
  lemma EtaTextShowsMinutes(arrival: int, now: int)
    ensures var t := EtaText(Some(arrival), now); var d := DigitPrefix(t);
      d != [] && DigitsValue(d) == MinutesLeft(arrival, now) && t[|d|..] == " min"
  {
    var m := NatToString(MinutesLeft(arrival, now));
    DigitPrefixOfDigits(m, " min");
    assert (m + " min")[|m|..] == " min";
  }

  /** Right after the effect the card shows six minutes. */
  lemma FreshArrivalShowsSixMinutes(now: int)
    ensures MinutesLeft(now + ArrivalDelay, now) == 6
  {
  }

  // ---------------------------------------------------------------------------
  // Buttons

  /** Contact Unit and Track Location are disabled on standby. */
  function ButtonsDisabled(status: Stage): bool
  {
    status == Standby
  }

  /** The Emergency Override block is rendered off standby. */
  function OverrideShown(status: Stage): bool
  {
    status != Standby
  }

  /** The override appears exactly when the buttons are enabled. */
  lemma OverrideIffButtonsEnabled(status: Stage)
    ensures OverrideShown(status) <==> !ButtonsDisabled(status)
    ensures ButtonsDisabled(status) <==> IndexOf(Key(status)) == 0
  {
  }

  datatype Unit = Unit(id: string, callSign: string, crew: seq<string>, location: string, eta: string, status: string)

  const MockUnit: Unit := Unit("AMB-001", "Rescue 1", ["EMT Johnson", "Paramedic Smith"], "2.3 miles away", "6 min", "en_route")

  class StatusCard {
    var currentStatus: Stage
    var estimatedArrival: Option<int>
    var ambulanceUnits: seq<Unit>

    constructor ()
      ensures currentStatus == Standby && estimatedArrival == None && ambulanceUnits == []
    {
      currentStatus := Standby;
      estimatedArrival := None;
      ambulanceUnits := [];
    }

    /**
     * The effect on `[dispatchData, isActive]`: with dispatch data present and
     * the call active the card shows a dispatch due six minutes from `now` and
     * the mock unit; otherwise nothing changes.
     */
    method OnDispatchData(hasDispatchData: bool, isActive: bool, now: int)
      modifies this
      ensures currentStatus == Replay(old(currentStatus), [(hasDispatchData, isActive)])
      ensures hasDispatchData && isActive ==>
        currentStatus == Dispatched && estimatedArrival == Some(now + ArrivalDelay) && ambulanceUnits == [MockUnit]
      ensures !(hasDispatchData && isActive) ==>
        currentStatus == old(currentStatus) && estimatedArrival == old(estimatedArrival) && ambulanceUnits == old(ambulanceUnits)
    {
      if hasDispatchData && isActive {
        currentStatus := Dispatched;
        estimatedArrival := Some(now + ArrivalDelay);
        ambulanceUnits := [MockUnit];
      }
    }
  }

  /** No sequence of effect runs leaves standby unless one of them had dispatch data on an active call. */
  lemma StandbyUntilDispatch(runs: seq<(bool, bool)>)
    ensures Replay(Standby, runs) == Standby <==> forall i :: 0 <= i < |runs| ==> !(runs[i].0 && runs[i].1)
  {
    ReplayStandby(Standby, runs);
  }

  /** The status after a sequence of effect runs, each given as (dispatch data present, call active). */
  function Replay(s: Stage, runs: seq<(bool, bool)>): Stage
    decreases |runs|
  {
    if runs == [] then s
    else Replay(if runs[0].0 && runs[0].1 then Dispatched else s, runs[1..])
  }

  lemma {:induction false} ReplayStandby(s: Stage, runs: seq<(bool, bool)>)
    ensures s != Standby ==> Replay(s, runs) != Standby
    ensures s == Standby ==> (Replay(s, runs) == Standby <==> forall i :: 0 <= i < |runs| ==> !(runs[i].0 && runs[i].1))
    decreases |runs|
  {
    if runs != [] {
      var next := if runs[0].0 && runs[0].1 then Dispatched else s;
      ReplayStandby(next, runs[1..]);
      assert forall i :: 1 <= i < |runs| ==> runs[i] == runs[1..][i - 1];
      if s == Standby && Replay(next, runs[1..]) == Standby {
        forall i | 0 <= i < |runs|
          ensures !(runs[i].0 && runs[i].1)
        {
          if i > 0 {
            assert runs[i] == runs[1..][i - 1];
          }
        }
      }
    }
  }
}
