/**
 * The ambulance dispatch page (src/pages/ambulance-dispatch/index.jsx): the
 * selected unit, the auto-selection of the recommended unit, and the
 * selecting → dispatching → dispatched status.
 */
module AmbulanceDispatch {
  import opened Text
  import opened AmbulanceTable

  const Ambulances: seq<Ambulance> := [
    Ambulance("amb-001", "AMB-101", "Advanced Life Support", "AVAILABLE", 8,
              ["Defibrillator", "Ventilator", "Cardiac Monitor", "IV Supplies"], true),
    Ambulance("amb-002", "AMB-203", "Basic Life Support", "AVAILABLE", 12,
              ["Basic Airway", "Oxygen", "Splints", "First Aid"], false),
    Ambulance("amb-003", "AMB-305", "Advanced Life Support", "EN_ROUTE", 15,
              ["Defibrillator", "Ventilator", "Cardiac Monitor", "Medications"], false),
    Ambulance("amb-004", "AMB-407", "Critical Care Transport", "AVAILABLE", 18,
              ["ECMO", "Ventilator", "Cardiac Monitor", "Blood Products"], false)
  ]

  /** `ambulanceData.find(amb => amb.recommended)` */
  function FirstRecommended(units: seq<Ambulance>): (r: Option<Ambulance>)
    ensures r.Some? ==> exists i :: 0 <= i < |units| && units[i] == r.value && r.value.recommended
                          && forall j :: 0 <= j < i ==> !units[j].recommended
    ensures r.None? ==> forall i :: 0 <= i < |units| ==> !units[i].recommended
  {
    if units == [] then None
    else if units[0].recommended then Some(units[0])
    else
      var r := FirstRecommended(units[1..]);
      if r.Some? then
        var i :| 0 <= i < |units[1..]| && units[1..][i] == r.value && r.value.recommended
                 && forall j :: 0 <= j < i ==> !units[1..][j].recommended;
        assert units[i + 1] == r.value;
        assert forall j :: 0 <= j < i + 1 ==> !units[j].recommended by {
          forall j | 0 <= j < i + 1 ensures !units[j].recommended {
            if j > 0 { assert units[j] == units[1..][j - 1]; }
          }
        }
        r
      else r
  }

  /** The unit the page would pick on its own is amb-001, and it is available. */
  lemma RecommendedUnitIsAvailable()
    ensures FirstRecommended(Ambulances) == Some(Ambulances[0])
    ensures Ambulances[0].id == "amb-001" && Selectable(Ambulances[0])
  {
  }

  datatype Status = Selecting | Dispatching | Dispatched

  /** Position along the dispatch order. */
  function Rank(s: Status): nat
  {
    match s
    case Selecting => 0
    case Dispatching => 1
    case Dispatched => 2
  }

  /** `handleDispatchConfirm` as written: the status becomes dispatching whatever it was. */
  function ConfirmAsWritten(s: Status): Status
  {
    Dispatching
  }

  /** A second confirmation after the dispatch went through moves the status backwards. */
  lemma ConfirmAsWrittenGoesBackwards()
    ensures ConfirmAsWritten(Dispatched) == Dispatching
    ensures Rank(ConfirmAsWritten(Dispatched)) < Rank(Dispatched)
  {
  }

  /** Confirming only starts a dispatch that has not started yet. */
  function Confirm(s: Status): (r: Status)
    ensures Rank(r) >= Rank(s)
    ensures s == Selecting <==> r == Dispatching && s != r
  {
    if s == Selecting then Dispatching else s
  }

  /** The three-second timer the confirmation starts. */
  function DispatchTimerFired(s: Status): (r: Status)
    ensures Rank(r) >= Rank(s)
  {
    Dispatched
  }

  /** Any run of confirmations and timer firings only moves forward. */
  function Run(s: Status, confirms: seq<bool>): Status
    decreases |confirms|
  {
    if confirms == [] then s
    else Run(if confirms[0] then Confirm(s) else DispatchTimerFired(s), confirms[1..])
  }

  lemma {:induction false} RunNeverGoesBack(s: Status, confirms: seq<bool>)
    ensures Rank(Run(s, confirms)) >= Rank(s)
    decreases |confirms|
  {
    if confirms != [] {
      RunNeverGoesBack(if confirms[0] then Confirm(s) else DispatchTimerFired(s), confirms[1..]);
    }
  }

  class DispatchPage {
    var selectedAmbulance: Option<string>
    var dispatchStatus: Status

    constructor ()
      ensures selectedAmbulance == None && dispatchStatus == Selecting
    {
      selectedAmbulance := None;
      dispatchStatus := Selecting;
    }

    /** `handleAmbulanceSelect`: the id is stored as given, availability is not checked; `None` clears. */
    method SelectAmbulance(id: Option<string>)
      modifies this
      ensures selectedAmbulance == id && dispatchStatus == old(dispatchStatus)
    {
      selectedAmbulance := id;
    }

    /** The three-second auto-select timer: with no selection it picks the first recommended unit. */
    method AutoSelectTick()
      modifies this
      ensures HasSelection(old(selectedAmbulance)) ==> selectedAmbulance == old(selectedAmbulance)
      ensures !HasSelection(old(selectedAmbulance)) ==> selectedAmbulance == Some("amb-001")
      ensures dispatchStatus == old(dispatchStatus)
    {
      if !HasSelection(selectedAmbulance) {
        var recommended := FirstRecommended(Ambulances);
        if recommended.Some? {
          selectedAmbulance := Some(recommended.value.id);
        }
      }
    }

    /** `handleDispatchConfirm`, with the guard that keeps the status from going back. */
    method ConfirmDispatch()
      modifies this
      ensures dispatchStatus == Confirm(old(dispatchStatus))
      ensures Rank(dispatchStatus) >= Rank(old(dispatchStatus))
      ensures selectedAmbulance == old(selectedAmbulance)
    {
      if dispatchStatus == Selecting {
        dispatchStatus := Dispatching;
      }
    }

    /** The timer `handleDispatchConfirm` starts. */
    method DispatchTimer()
      modifies this
      ensures dispatchStatus == Dispatched
      ensures selectedAmbulance == old(selectedAmbulance)
    {
      dispatchStatus := Dispatched;
    }
  }
}
