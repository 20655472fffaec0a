/**
 * The unit table of the dispatch page
 * (src/pages/ambulance-dispatch/components/AmbulanceSelectionTable.jsx): the
 * ETA text, the status badge, which units can be selected or contacted, the
 * equipment shown on small screens and the crew-contact indicator.
 */
module AmbulanceTable {
  import opened Text

  datatype Ambulance = Ambulance(id: string, unitNumber: string, kind: string, status: string,
                                 eta: nat, equipment: seq<string>, recommended: bool)

  /** `formatETA`: minutes below an hour as "M min", otherwise "Hh Mm". */
  function FormatEta(minutes: nat): string
  {
    if minutes < 60 then NatToString(minutes) + " min"
    else NatToString(minutes / 60) + ("h " + (NatToString(minutes % 60) + "m"))
  }

  /** Reading an ETA text back into minutes. */
  function ParseEta(s: string): Option<nat>
  {
    var first := DigitPrefix(s);
    if first == [] then None else ParseEtaUnit(DigitsValue(first), s[|first|..])
  }

  /** What follows the leading number: " min", or "h " and the minutes field. */
  function ParseEtaUnit(n: nat, rest: string): Option<nat>
  {
    if rest == " min" then Some(n)
    else if |rest| >= 2 && rest[..2] == "h " then
      match ParseMinutesField(rest[2..])
      case Some(m) => Some(n * 60 + m)
      case None => None
    else None
  }

  /** The "Mm" field after the hours. */
  function ParseMinutesField(r: string): Option<nat>
  {
    var digits := DigitPrefix(r);
    if digits != [] && r[|digits|..] == "m" then Some(DigitsValue(digits)) else None
  }

  /** A rendered number followed by a non-digit splits at the number's end. */
  lemma NumberThen(n: nat, tail: string)
    requires tail != [] && !IsDigit(tail[0])
    ensures DigitPrefix(NatToString(n) + tail) == NatToString(n)
    ensures (NatToString(n) + tail)[|NatToString(n)|..] == tail
  {
    DigitPrefixOfDigits(NatToString(n), tail);
  }

  /** A rendered number followed by a unit reads back through that unit. */
  lemma ParseEtaOfNumber(n: nat, tail: string)
    requires tail != [] && !IsDigit(tail[0])
    ensures ParseEta(NatToString(n) + tail) == ParseEtaUnit(n, tail)
  {
    NumberThen(n, tail);
  }

  lemma MinutesFieldRoundTrip(n: nat)
    ensures ParseMinutesField(NatToString(n) + "m") == Some(n)
  {
    NumberThen(n, "m");
  }

  /** The hours unit reads back as hours and minutes recombined. */
  lemma HoursUnitRoundTrip(h: nat, m: nat)
    ensures ParseEtaUnit(h, "h " + (NatToString(m) + "m")) == Some(h * 60 + m)
  {
    var rest := "h " + (NatToString(m) + "m");
    assert rest[..2] == "h " && rest[2..] == NatToString(m) + "m";
    assert rest != " min" by {
      assert rest[1] == ' ';
    }
    MinutesFieldRoundTrip(m);
  }

  /** The ETA text reads back as the minutes: hours and minutes recombine to the total. */
  lemma EtaRoundTrip(minutes: nat)
    ensures ParseEta(FormatEta(minutes)) == Some(minutes)
  {
    if minutes < 60 {
      ParseEtaOfNumber(minutes, " min");
    } else {
      ParseEtaOfNumber(minutes / 60, "h " + (NatToString(minutes % 60) + "m"));
      HoursUnitRoundTrip(minutes / 60, minutes % 60);
    }
  }

  datatype StatusBadge = AvailableBadge | EnRouteBadge | BusyBadge | MaintenanceBadge | DefaultBadge

  /** `getStatusConfig`, reduced to which badge is chosen. */
  function StatusBadgeOf(status: string): StatusBadge
  {
    if status == "AVAILABLE" then AvailableBadge
    else if status == "EN_ROUTE" then EnRouteBadge
    else if status == "BUSY" then BusyBadge
    else if status == "MAINTENANCE" then MaintenanceBadge
    else DefaultBadge
  }

  /** The select radio and the Contact button are enabled only for available units. */
  function Selectable(a: Ambulance): bool
  {
    a.status == "AVAILABLE"
  }

  /** A unit can be picked exactly when it wears the available badge. */
  lemma SelectableIffAvailableBadge(a: Ambulance)
    ensures Selectable(a) <==> StatusBadgeOf(a.status) == AvailableBadge
  {
  }

  /** The four known statuses get four different badges; anything else gets the default one. */
  lemma StatusBadgesDistinct(status: string)
    ensures StatusBadgeOf(status) == DefaultBadge <==> status !in ["AVAILABLE", "EN_ROUTE", "BUSY", "MAINTENANCE"]
  {
  }

  /** The equipment chips on small screens, and the "+N more" chip if any are hidden. */
  datatype EquipmentView = EquipmentView(shown: seq<string>, more: Option<nat>)

  function EquipmentViewOf(equipment: seq<string>): (r: EquipmentView)
    ensures |r.shown| <= 3 && r.shown <= equipment
    ensures r.more.Some? <==> |equipment| > 3
    ensures |r.shown| + (if r.more.Some? then r.more.value else 0) == |equipment|
  {
    if |equipment| > 3 then EquipmentView(equipment[..3], Some(|equipment| - 3))
    else EquipmentView(equipment, None)
  }

  /**
   * `selectedAmbulance && …`, which also decides whether the dispatch footer
   * appears: a missing or empty id is falsy.
   */
  predicate HasSelection(selected: Option<string>)
  {
    selected.Some? && selected.value != []
  }

  class CrewContact {
    /** `contactingCrew`: the unit being called, shown with a spinner. */
    var contacting: Option<string>

    constructor ()
      ensures contacting == None
    {
      contacting := None;
    }

    /** `handleContactCrew` */
    method Contact(id: string)
      modifies this
      ensures contacting == Some(id)
    {
      contacting := Some(id);
    }

    /** The two-second timeout the contact starts. */
    method ContactTimeout()
      modifies this
      ensures contacting == None
    {
      contacting := None;
    }

    function Loading(id: string): bool
      reads this
    {
      contacting == Some(id)
    }
  }
}
