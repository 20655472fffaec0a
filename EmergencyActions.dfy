/**
 * The action panel of the call screen
 * (src/pages/emergency-call-interface/components/EmergencyActions.jsx): the
 * dispatch guard and payload, the dispatch priority and its ETA label, the
 * recommended protocols and the clarification questions offered.
 */
module EmergencyActions {
  import opened Text
  import opened Lists
  import C = Classification
  import E = Extraction
  import ClassificationFixture

  datatype EmergencyProtocol = EmergencyProtocol(id: string, name: string, category: string)

  const EmergencyProtocols: seq<EmergencyProtocol> := [
    EmergencyProtocol("cpr", "CPR Instructions", "cardiac"),
    EmergencyProtocol("bleeding", "Bleeding Control", "accident"),
    EmergencyProtocol("choking", "Choking Response", "other"),
    EmergencyProtocol("stroke", "Stroke Assessment", "stroke")
  ]

  /** The category as the classifier publishes it. */
  function CategoryName(c: C.CategoryId): string
  {
    match c
    case Cardiac => "cardiac"
    case Accident => "accident"
    case Stroke => "stroke"
    case Other => "other"
  }

  /** `protocol.category === classification.category || protocol.category === 'other'`; a null category equals no string. */
  function Fits(classification: C.Classification, p: EmergencyProtocol): bool
  {
    (classification.category.Some? && p.category == CategoryName(classification.category.value)) || p.category == "other"
  }

  /** `getRecommendedProtocols` */
  function RecommendedProtocols(classification: Option<C.Classification>): seq<EmergencyProtocol>
  {
    match classification
    case None => EmergencyProtocols[..2]
    case Some(c) => Filter(EmergencyProtocols, p => Fits(c, p))
  }

  /** Without a classification the first two protocols, CPR and bleeding control, are offered. */
  lemma NoClassificationRecommendsFirstTwo()
    ensures |RecommendedProtocols(None)| == 2
    ensures RecommendedProtocols(None)[0].id == "cpr" && RecommendedProtocols(None)[1].id == "bleeding"
  {
  }

  /**
   * With a classification, a protocol is offered exactly when its category is
   * the classified one or `other`; choking is therefore always offered.
   */
  lemma RecommendedForClassification(c: C.Classification, p: EmergencyProtocol)
    ensures p in RecommendedProtocols(Some(c)) <==>
              p in EmergencyProtocols && ((c.category.Some? && p.category == CategoryName(c.category.value)) || p.category == "other")
    ensures EmergencyProtocols[2] in RecommendedProtocols(Some(c))
  {
    assert EmergencyProtocols[2] in EmergencyProtocols;
  }

  datatype Priority = Emergency | Urgent | Standard

  /** `getDispatchPriority` */
  function DispatchPriority(classification: Option<C.Classification>): Priority
  {
    match classification
    case None => Standard
    case Some(c) =>
      match c.severity
      case Critical => Emergency
      case Moderate => Urgent
      case Stable => Standard
  }

  /** The ETA shown beside the priority. */
  function EtaLabel(p: Priority): string
  {
    match p
    case Emergency => "4-6 min"
    case Urgent => "6-8 min"
    case Standard => "8-12 min"
  }

  /** Different priorities show different ETAs, so the label tells the priority. */
  lemma EtaLabelTellsPriority(p: Priority, q: Priority)
    requires EtaLabel(p) == EtaLabel(q)
    ensures p == q
  {
  }

  /**
   * Composed with the classifier's severity rule: a critical phrase or a
   * score above 0.95 means an emergency dispatch, a score above 0.85 an
   * urgent one, anything else a standard one.
   */
  lemma PriorityFromScore(detected: seq<C.DetectedKeyword>, category: Option<C.CategoryId>, score: real)
    ensures var c := C.Classification(category, C.SeverityFor(detected, score), score);
      DispatchPriority(Some(c)) ==
        if C.HasCriticalKeyword(detected) || score > C.CriticalScore then Emergency
        else if score > C.ModerateScore then Urgent
        else Standard
  {
  }

  /** The page's mock keywords lead to an emergency dispatch with a 4-6 minute ETA. */
  lemma PageKeywordsMeanEmergency()
    ensures match C.Classify(ClassificationFixture.CallKeywords)
      case None => false
      case Some(o) =>
        var c := C.Classification(Some(o.category), o.severity, o.confidence);
        DispatchPriority(Some(c)) == Emergency && EtaLabel(DispatchPriority(Some(c))) == "4-6 min"
  {
    ClassificationFixture.CallKeywordsClassifyAsCriticalCardiac();
  }

  const ClarificationQuestions: seq<string> := [
    "Can you confirm the exact address?",
    "Is the patient conscious and breathing?",
    "Are there any visible injuries?",
    "How many people need medical attention?",
    "Is the scene safe for responders?",
    "Does the patient have any known medical conditions?"
  ]

  /** `clarificationQuestions.slice(0, 4)` */
  function OfferedQuestions(): (r: seq<string>)
    ensures |r| == 4 && r <= ClarificationQuestions
    ensures ClarificationQuestions[4] !in r && ClarificationQuestions[5] !in r
  {
    ClarificationQuestions[..4]
  }

  /** What `onDispatch` receives. */
  datatype Payload = Payload(classification: C.Classification, location: E.Location, patientCount: int, severity: C.Severity)

  class DispatchPanel {
    var isDispatching: bool
    /** `dispatchStatus === 'dispatched'` */
    var dispatched: bool
    /** The payload the pending dispatch call will hand over. */
    var pending: Option<Payload>

    ghost predicate Valid()
      reads this
    {
      isDispatching <==> pending.Some?
    }

    constructor ()
      ensures Valid() && !isDispatching && !dispatched && pending == None
    {
      isDispatching := false;
      dispatched := false;
      pending := None;
    }

    /** The dispatch button: disabled once dispatched. */
    function ButtonDisabled(): bool
      reads this
    {
      dispatched
    }

    /**
     * `handleDispatch` up to its simulated API call: refused (with an alert)
     * unless both a classification and extracted information exist, otherwise
     * the panel starts dispatching with the payload taken from them unchanged.
     * The guard only checks that they exist, so a null category passes.
     */
    method Dispatch(classification: Option<C.Classification>, info: Option<E.Record>) returns (started: bool)
      modifies this
      requires Valid()
      ensures Valid()
      ensures started <==> classification.Some? && info.Some?
      ensures !started ==> isDispatching == old(isDispatching) && dispatched == old(dispatched) && pending == old(pending)
      ensures started ==> isDispatching && dispatched == old(dispatched)
      ensures started ==> pending == Some(Payload(classification.value, info.value.location,
                                                  info.value.patientCount.count, classification.value.severity))
    {
      if classification.None? || info.None? {
        return false;
      }
      isDispatching := true;
      pending := Some(Payload(classification.value, info.value.location,
                              info.value.patientCount.count, classification.value.severity));
      started := true;
    }

    /** The simulated API call resolving: the status becomes dispatched and the payload goes to `onDispatch`. */
    method Resolve() returns (payload: Option<Payload>)
      modifies this
      requires Valid()
      ensures Valid()
      ensures payload == old(pending)
      ensures old(pending).Some? ==> dispatched && !isDispatching && ButtonDisabled()
      ensures old(pending).None? ==> dispatched == old(dispatched) && !isDispatching
    {
      payload := pending;
      if pending.Some? {
        dispatched := true;
        isDispatching := false;
        pending := None;
      }
    }
  }
}
