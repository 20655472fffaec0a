/**
 * The extracted-information panel
 * (src/pages/emergency-call-interface/components/ExtractedInformation.jsx):
 * a record of location, patient count and caller details that the transcript
 * effect fills in section by section, plus the per-section edit and save
 * handlers.
 */
module Extraction {
  import opened Text
  import opened Patterns

  /**
   * Each section carries `verified`; a section the source has not saved yet
   * lacks the key, which reads as false, and that is what `false` stands for.
   */
  datatype Location = Location(address: string, coordinates: string, confidence: real, verified: bool)
  datatype PatientCount = PatientCount(count: int, confidence: real, details: string, verified: bool)
  datatype CallerDetails = CallerDetails(name: string, phone: string, relationship: string, confidence: real, verified: bool)

  datatype Record = Record(location: Location, patientCount: PatientCount, callerDetails: CallerDetails)

  datatype Section = LocationSection | PatientCountSection | CallerDetailsSection

  datatype Editing = Editing(location: bool, patientCount: bool, callerDetails: bool)

  /** The input fields of each section. */
  datatype LocationField = Address | Coordinates
  datatype CallerField = Name | Phone | Relationship

  /** The confidence colour band of a section. */
  datatype Band = Success | Warning | Error

  const MockCoordinates: string := "40.7128, -74.0060"
  const MockPhone: string := "+1 (555) 123-4567"
  const DefaultRelationship: string := "caller"
  const PatientDetailsSuffix: string := " person(s) involved"
  const AddressConfidence: real := 0.92
  const PatientConfidence: real := 0.88
  const CallerConfidence: real := 0.85

  const InitialRecord: Record := Record(
    Location("", "", 0.0, false),
    PatientCount(1, 0.0, "", false),
    CallerDetails("", "", "", 0.0, false))

  const NotEditing: Editing := Editing(false, false, false)

  /** The address written into the record: the address match, then `", "` and the apartment match when there is one. */
  function FullAddress(t: string): Option<string>
  {
    match AddressMatch(t)
    case None => None
    case Some(base) =>
      var apartment := match UnitMatch(t) case None => "" case Some(unit) => ", " + unit;
      Some(base + apartment)
  }

  function ExtractLocation(l: Location, t: string): Location
  {
    match FullAddress(t)
    case None => l
    case Some(address) => l.(address := address, coordinates := MockCoordinates, confidence := AddressConfidence)
  }

  function ExtractPatientCount(pc: PatientCount, t: string): PatientCount
  {
    match PatientMatch(t)
    case None => pc
    case Some(digits) =>
      if AllDigits(digits) then PatientCount(DigitsValue(digits), PatientConfidence, digits + PatientDetailsSuffix, false)
      else pc
  }

  function ExtractCaller(c: CallerDetails, t: string): CallerDetails
  {
    match NameMatch(t)
    case None => c
    case Some(name) =>
      var relationship := match RelationMatch(t) case Some(r) => r case None => DefaultRelationship;
      c.(name := name, phone := MockPhone, relationship := relationship, confidence := CallerConfidence)
  }

  /** The record after the transcript effect has run on `transcript`. */
  function Extract(r: Record, transcript: string): Record
  {
    if transcript == [] then r
    else
      var t := Lower(transcript);
      Record(ExtractLocation(r.location, t), ExtractPatientCount(r.patientCount, t), ExtractCaller(r.callerDetails, t))
  }

  /** `handleSave(section)` applied to the record. */
  function Verify(r: Record, s: Section): Record
  {
    match s
    case LocationSection => r.(location := r.location.(verified := true, confidence := 1.0))
    case PatientCountSection => r.(patientCount := r.patientCount.(verified := true, confidence := 1.0))
    case CallerDetailsSection => r.(callerDetails := r.callerDetails.(verified := true, confidence := 1.0))
  }

  function Flag(e: Editing, s: Section): bool
  {
    match s
    case LocationSection => e.location
    case PatientCountSection => e.patientCount
    case CallerDetailsSection => e.callerDetails
  }

  function SetFlag(e: Editing, s: Section, b: bool): (r: Editing)
    ensures Flag(r, s) == b
    ensures forall s' :: s' != s ==> Flag(r, s') == Flag(e, s')
  {
    match s
    case LocationSection => e.(location := b)
    case PatientCountSection => e.(patientCount := b)
    case CallerDetailsSection => e.(callerDetails := b)
  }

  /** The count typed into the patient-count input: `parseInt(value) || 1`. */
  function CountInput(value: string): (r: int)
    ensures r != 0
  {
    match ParseInt(value)
    case None => 1
    case Some(n) => if n == 0 then 1 else n
  }

  /** `getConfidenceColor` / `getConfidenceIcon`: at least 0.9, at least 0.7, below. */
  function ConfidenceBand(c: real): Band
  {
    if c >= 0.9 then Success else if c >= 0.7 then Warning else Error
  }

  // ---------------------------------------------------------------------------
  // Lemmas

  lemma SliceOfLowerIsLower(t: string, i: nat, j: nat)
    requires IsLower(t) && i <= j <= |t|
    ensures IsLower(t[i..j])
  {
    assert forall x :: 0 <= x < j - i ==> t[i..j][x] == t[i + x];
  }

  lemma AddressMatchIsSlice(t: string)
    requires AddressMatch(t).Some?
    ensures exists i: nat, j: nat :: i <= j <= |t| && AddressMatch(t).value == t[i..j]
  {
    AddressMatchSpec(t);
  }

  /** An empty transcript leaves the record as it was (the effect returns early). */
  lemma EmptyTranscriptChangesNothing(r: Record)
    ensures Extract(r, "") == r
  {
  }

  /** Running the effect twice on the same transcript gives the record of running it once. */
  lemma ExtractIdempotent(r: Record, transcript: string)
    ensures Extract(Extract(r, transcript), transcript) == Extract(r, transcript)
  {
  }

  /**
   * The location section after extraction: with an address match, the
   * address is the match followed by `", "` and the apartment match when
   * there is one, the coordinates are the fixed mock value and the confidence
   * is 0.92, whatever was saved before; `verified` is always kept.
   */
  lemma ExtractedLocation(r: Record, transcript: string)
    requires transcript != []
    ensures var t := Lower(transcript);
      var l := Extract(r, transcript).location;
      && l.verified == r.location.verified
      && (AddressMatch(t).None? ==> l == r.location)
      && (AddressMatch(t).Some? && UnitMatch(t).None? ==>
            l == Location(AddressMatch(t).value, MockCoordinates, AddressConfidence, r.location.verified))
      && (AddressMatch(t).Some? && UnitMatch(t).Some? ==>
            l == Location(AddressMatch(t).value + (", " + UnitMatch(t).value), MockCoordinates, AddressConfidence, r.location.verified))
  {
  }

  /** A saved (verified) location is still overwritten by a later address match, with confidence back at 0.92. */
  lemma VerifiedLocationNotFrozen(r: Record, transcript: string)
    requires r.location.verified && r.location.confidence == 1.0
    requires transcript != [] && AddressMatch(Lower(transcript)).Some?
    ensures Extract(r, transcript).location.confidence == AddressConfidence
    ensures Extract(r, transcript).location.verified
  {
  }

  /**
   * The patient-count section after extraction: with a match it is replaced
   * whole, the count being the value of the digit group, the details naming
   * the group as written, and no `verified` mark; otherwise it is unchanged.
   */
  lemma ExtractedPatientCount(r: Record, transcript: string)
    requires transcript != []
    ensures var t := Lower(transcript);
      var pc := Extract(r, transcript).patientCount;
      && (PatientMatch(t).None? ==> pc == r.patientCount)
      && (PatientMatch(t).Some? ==>
            && ParseInt(PatientMatch(t).value) == Some(pc.count)
            && pc.count >= 0
            && pc == PatientCount(pc.count, PatientConfidence, PatientMatch(t).value + PatientDetailsSuffix, false))
  {
    var t := Lower(transcript);
    if PatientMatch(t).Some? {
      PatientMatchSpec(t);
      var g := PatientMatch(t).value;
      var p: nat, d: nat, s: nat, k: nat :| PatientParts(t, p, d, s, k) && g == t[p..d];
      assert AllDigits(g);
      ParseIntOfDigits(g);
    }
  }

  /** With no patient phrase the count keeps its value, which starts at 1. */
  lemma InitialCountSurvivesNoMatch(transcript: string)
    requires transcript == [] || PatientMatch(Lower(transcript)).None?
    ensures Extract(InitialRecord, transcript).patientCount.count == 1
  {
  }

  /**
   * The caller section after extraction: only a name match changes it; then
   * the relationship is the relation word found or `caller`, the phone is the
   * fixed mock number and `verified` is kept.
   */
  lemma ExtractedCaller(r: Record, transcript: string)
    requires transcript != []
    ensures var t := Lower(transcript);
      var c := Extract(r, transcript).callerDetails;
      && c.verified == r.callerDetails.verified
      && (NameMatch(t).None? ==> c == r.callerDetails)
      && (NameMatch(t).Some? ==>
            && c.name == NameMatch(t).value
            && c.phone == MockPhone
            && c.confidence == CallerConfidence
            && (RelationMatch(t).Some? ==> c.relationship == RelationMatch(t).value && c.relationship in Relations)
            && (RelationMatch(t).None? ==> c.relationship == DefaultRelationship))
  {
  }

  lemma AddressLower(t: string)
    requires IsLower(t) && AddressMatch(t).Some?
    ensures IsLower(AddressMatch(t).value)
  {
    var (p, h) := Leftmost(t, p => AddressAt(t, p), 0).value;
    SliceOfLowerIsLower(t, p, h.at + |StreetSuffixes[h.alt]|);
  }

  lemma UnitLower(t: string)
    requires IsLower(t) && UnitMatch(t).Some?
    ensures IsLower(UnitMatch(t).value)
  {
    var (p, e) := Leftmost(t, p => UnitFrom(t, p, 0), 0).value;
    SliceOfLowerIsLower(t, p, e);
  }

  /** The address written by extraction comes from the lowercased transcript, so it has no upper-case letter. */
  lemma FullAddressIsLower(t: string)
    requires IsLower(t) && FullAddress(t).Some?
    ensures IsLower(FullAddress(t).value)
  {
    AddressLower(t);
    if UnitMatch(t).Some? {
      UnitLower(t);
      assert IsLower(", ");
      LowerConcat(", ", UnitMatch(t).value);
      LowerConcat(AddressMatch(t).value, ", " + UnitMatch(t).value);
    } else {
      assert AddressMatch(t).value + "" == AddressMatch(t).value;
    }
  }

  /** The caller name written by extraction has no upper-case letter either. */
  lemma NameIsLower(t: string)
    requires IsLower(t) && NameMatch(t).Some?
    ensures IsLower(NameMatch(t).value)
  {
    var (_, sp) := Leftmost(t, p => NameFrom(t, p, 0), 0).value;
    SliceOfLowerIsLower(t, sp.start, sp.end);
  }

  /** Whatever address or name extraction writes has no upper-case letter. */
  lemma ExtractedTextIsLower(r: Record, transcript: string)
    requires transcript != []
    ensures FullAddress(Lower(transcript)).Some? ==> IsLower(Extract(r, transcript).location.address)
    ensures NameMatch(Lower(transcript)).Some? ==> IsLower(Extract(r, transcript).callerDetails.name)
  {
    var t := Lower(transcript);
    LowerIsLower(transcript);
    if FullAddress(t).Some? {
      FullAddressIsLower(t);
    }
    if NameMatch(t).Some? {
      NameIsLower(t);
    }
  }

  lemma LowerConcat(a: string, b: string)
    requires IsLower(a) && IsLower(b)
    ensures IsLower(a + b)
  {
    assert forall x :: 0 <= x < |a + b| ==> (a + b)[x] == if x < |a| then a[x] else b[x - |a|];
  }

  /**
   * Saving marks only its own section verified with confidence 1.0, keeps
   * that section's entered values, leaves the other sections untouched, and
   * saving twice is the same as saving once.
   */
  lemma VerifyTouchesOneSection(r: Record, s: Section)
    ensures var v := Verify(r, s);
      && (s != LocationSection ==> v.location == r.location)
      && (s != PatientCountSection ==> v.patientCount == r.patientCount)
      && (s != CallerDetailsSection ==> v.callerDetails == r.callerDetails)
      && (s == LocationSection ==>
            && v.location.verified && v.location.confidence == 1.0
            && v.location.address == r.location.address && v.location.coordinates == r.location.coordinates)
      && (s == PatientCountSection ==>
            && v.patientCount.verified && v.patientCount.confidence == 1.0
            && v.patientCount.count == r.patientCount.count && v.patientCount.details == r.patientCount.details)
      && (s == CallerDetailsSection ==>
            && v.callerDetails.verified && v.callerDetails.confidence == 1.0
            && v.callerDetails.name == r.callerDetails.name && v.callerDetails.phone == r.callerDetails.phone
            && v.callerDetails.relationship == r.callerDetails.relationship)
      && Verify(v, s) == v
  {
  }

  /** The count input never yields 0: it round-trips every non-zero count and turns `0` and non-numbers into 1. */
  lemma CountInputRoundTrip(n: int)
    ensures n != 0 ==> CountInput(IntToString(n)) == n
    ensures n == 0 ==> CountInput(IntToString(n)) == 1
  {
    ParseIntOfIntToString(n);
  }

  lemma CountInputOfNonNumber(value: string)
    requires ParseInt(value).None?
    ensures CountInput(value) == 1
  {
  }

  /** The bands are ordered: a higher confidence never gets a worse band. */
  lemma ConfidenceBandMonotone(c1: real, c2: real)
    requires c1 <= c2
    ensures ConfidenceBand(c1) == Success ==> ConfidenceBand(c2) == Success
    ensures ConfidenceBand(c1) == Warning ==> ConfidenceBand(c2) != Error
  {
  }

  /** A saved section shows the top band; the extracted confidences fall in the bands their values give. */
  lemma ConfidenceBandsOfConstants()
    ensures ConfidenceBand(1.0) == Success
    ensures ConfidenceBand(AddressConfidence) == Success
    ensures ConfidenceBand(PatientConfidence) == Warning
    ensures ConfidenceBand(CallerConfidence) == Warning
    ensures ConfidenceBand(0.0) == Error
  {
  }

  // ---------------------------------------------------------------------------
  // The component state

  class InformationPanel {
    var location: Location
    var patientCount: PatientCount
    var callerDetails: CallerDetails
    var editing: Editing

    /** The record passed to `onInformationUpdate`. */
    function Data(): Record
      reads this
    {
      Record(location, patientCount, callerDetails)
    }

    constructor ()
      ensures Data() == InitialRecord && editing == NotEditing
    {
      location := InitialRecord.location;
      patientCount := InitialRecord.patientCount;
      callerDetails := InitialRecord.callerDetails;
      editing := NotEditing;
    }

    /** The transcript effect: each pattern that matches updates its own section. */
    method OnTranscript(transcript: string)
      modifies this
      ensures Data() == Extract(old(Data()), transcript)
      ensures editing == old(editing)
    {
      if transcript == [] {
        return;
      }
      var t := Lower(transcript);
      UpdateLocation(t);
      UpdatePatientCount(t);
      UpdateCallerDetails(t);
    }

    /** The address step of the effect, on the lowercased text `t`. */
    method UpdateLocation(t: string)
      modifies this
      ensures location == ExtractLocation(old(location), t)
      ensures patientCount == old(patientCount) && callerDetails == old(callerDetails) && editing == old(editing)
    {
      var address := AddressMatch(t);
      var apartment := UnitMatch(t);
      if address.Some? {
        var suffix := match apartment case None => "" case Some(unit) => ", " + unit;
        location := location.(address := address.value + suffix, coordinates := MockCoordinates,
                              confidence := AddressConfidence);
      }
    }

    /** The patient-count step of the effect: the whole section is replaced. */
    method UpdatePatientCount(t: string)
      modifies this
      ensures patientCount == ExtractPatientCount(old(patientCount), t)
      ensures location == old(location) && callerDetails == old(callerDetails) && editing == old(editing)
    {
      var patients := PatientMatch(t);
      if patients.Some? && AllDigits(patients.value) {
        patientCount := PatientCount(DigitsValue(patients.value), PatientConfidence,
                                     patients.value + PatientDetailsSuffix, false);
      }
    }

    /** The caller step of the effect. */
    method UpdateCallerDetails(t: string)
      modifies this
      ensures callerDetails == ExtractCaller(old(callerDetails), t)
      ensures location == old(location) && patientCount == old(patientCount) && editing == old(editing)
    {
      var name := NameMatch(t);
      var relation := RelationMatch(t);
      if name.Some? {
        callerDetails := callerDetails.(name := name.value, phone := MockPhone,
                                        relationship := if relation.Some? then relation.value else DefaultRelationship,
                                        confidence := CallerConfidence);
      }
    }

    /** `handleEdit(section)`: toggles that section's edit flag only. */
    method Edit(s: Section)
      modifies this
      ensures editing == SetFlag(old(editing), s, !Flag(old(editing), s))
      ensures Data() == old(Data())
    {
      editing := SetFlag(editing, s, !Flag(editing, s));
    }

    /** `handleSave(section)`: closes the editor and marks the section verified with confidence 1.0. */
    method Save(s: Section)
      modifies this
      ensures editing == SetFlag(old(editing), s, false)
      ensures Data() == Verify(old(Data()), s)
    {
      editing := SetFlag(editing, s, false);
      match s
      case LocationSection => location := location.(verified := true, confidence := 1.0);
      case PatientCountSection => patientCount := patientCount.(verified := true, confidence := 1.0);
      case CallerDetailsSection => callerDetails := callerDetails.(verified := true, confidence := 1.0);
    }

    /** `handleLocationChange(field, value)` */
    method ChangeLocation(field: LocationField, value: string)
      modifies this
      ensures field == Address ==> location == old(location).(address := value)
      ensures field == Coordinates ==> location == old(location).(coordinates := value)
      ensures patientCount == old(patientCount) && callerDetails == old(callerDetails) && editing == old(editing)
    {
      match field
      case Address => location := location.(address := value);
      case Coordinates => location := location.(coordinates := value);
    }

    /** The count input's `onChange`: `handlePatientCountChange('count', parseInt(value) || 1)`. */
    method ChangePatientCount(value: string)
      modifies this
      ensures patientCount == old(patientCount).(count := CountInput(value))
      ensures location == old(location) && callerDetails == old(callerDetails) && editing == old(editing)
    {
      patientCount := patientCount.(count := CountInput(value));
    }

    /** `handlePatientCountChange('details', value)` */
    method ChangePatientDetails(value: string)
      modifies this
      ensures patientCount == old(patientCount).(details := value)
      ensures location == old(location) && callerDetails == old(callerDetails) && editing == old(editing)
    {
      patientCount := patientCount.(details := value);
    }

    /** `handleCallerDetailsChange(field, value)` */
    method ChangeCaller(field: CallerField, value: string)
      modifies this
      ensures field == Name ==> callerDetails == old(callerDetails).(name := value)
      ensures field == Phone ==> callerDetails == old(callerDetails).(phone := value)
      ensures field == Relationship ==> callerDetails == old(callerDetails).(relationship := value)
      ensures location == old(location) && patientCount == old(patientCount) && editing == old(editing)
    {
      match field
      case Name => callerDetails := callerDetails.(name := value);
      case Phone => callerDetails := callerDetails.(phone := value);
      case Relationship => callerDetails := callerDetails.(relationship := value);
    }
  }
}
