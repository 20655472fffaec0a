/**
 * The protocol picker of the first-aid page
 * (src/pages/first-aid-guidance/components/ProtocolSelector.jsx): which
 * protocols are recommended for an incident type, the rest, the reset
 * button and the priority badge.
 */
module ProtocolSelector {
  import opened Text
  import opened Lists

  datatype Protocol = Protocol(id: string, name: string, category: string, priority: string)

  const Protocols: seq<Protocol> := [
    Protocol("cpr", "CPR", "Cardiac", "CRITICAL"),
    Protocol("bleeding-control", "Bleeding Control", "Trauma", "HIGH"),
    Protocol("airway-management", "Airway Management", "Respiratory", "CRITICAL"),
    Protocol("stroke-response", "Stroke Response", "Neurological", "HIGH"),
    Protocol("safe-positioning", "Safe Positioning", "General", "MEDIUM"),
    Protocol("shock-management", "Shock Management", "General", "HIGH")
  ]

  /** The ids a known incident type recommends; `None` for any other type. */
  function IdsFor(incidentType: string): Option<seq<string>>
  {
    var k := Lower(incidentType);
    if k == "cardiac" then Some(["cpr", "safe-positioning"])
    else if k == "trauma" || k == "accident" then Some(["bleeding-control", "shock-management", "safe-positioning"])
    else if k == "respiratory" then Some(["airway-management", "safe-positioning"])
    else if k == "stroke" || k == "neurological" then Some(["stroke-response", "safe-positioning"])
    else None
  }

  /** The test inside the filter: listed ids for a known type, otherwise the CRITICAL protocols. */
  function Recommends(incidentType: Option<string>, p: Protocol): bool
  {
    var ids := if incidentType.Some? then IdsFor(incidentType.value) else None;
    match ids
    case Some(listed) => p.id in listed
    case None => p.priority == "CRITICAL"
  }

  /** `getRecommendedProtocols`: the filtered table, or its first three entries if nothing passed. */
  function RecommendedProtocols(incidentType: Option<string>): (r: seq<Protocol>)
    ensures r != []
    ensures forall p :: p in r ==> p in Protocols
  {
    var recommended := Filter(Protocols, p => Recommends(incidentType, p));
    if |recommended| > 0 then recommended else Protocols[..3]
  }

  /** `protocols.filter(p => !recommendedProtocols.includes(p))` */
  function OtherProtocols(incidentType: Option<string>): seq<Protocol>
  {
    var recommended := RecommendedProtocols(incidentType);
    Filter(Protocols, p => p !in recommended)
  }

  /** The protocol the "Reset to Recommended" button selects. */
  function ResetTarget(incidentType: Option<string>): string
  {
    RecommendedProtocols(incidentType)[0].id
  }

  /** Every incident type passes at least one protocol, so the first-three fallback is never used. */
  lemma FilterNeverEmpty(incidentType: Option<string>)
    ensures Filter(Protocols, p => Recommends(incidentType, p)) != []
    ensures RecommendedProtocols(incidentType) == Filter(Protocols, p => Recommends(incidentType, p))
  {
    var keep := p => Recommends(incidentType, p);
    assert Protocols[0] in Protocols && Protocols[4] in Protocols;
    if keep(Protocols[0]) {
      assert Protocols[0] in Filter(Protocols, keep);
    } else {
      assert keep(Protocols[4]);
      assert Protocols[4] in Filter(Protocols, keep);
    }
  }

  /** A known type recommends exactly the protocols with the listed ids. */
  lemma RecommendedForKnownType(incidentType: string, p: Protocol)
    requires IdsFor(incidentType).Some?
    ensures p in RecommendedProtocols(Some(incidentType)) <==> p in Protocols && p.id in IdsFor(incidentType).value
  {
    FilterNeverEmpty(Some(incidentType));
  }

  /** Any other type, or none, recommends exactly the CRITICAL protocols. */
  lemma RecommendedForOtherType(incidentType: Option<string>, p: Protocol)
    requires incidentType.None? || IdsFor(incidentType.value).None?
    ensures p in RecommendedProtocols(incidentType) <==> p in Protocols && p.priority == "CRITICAL"
  {
    FilterNeverEmpty(incidentType);
  }

  /** Recommended and other protocols split the table: each protocol is in exactly one of them. */
  lemma RecommendedAndOtherPartition(incidentType: Option<string>, p: Protocol)
    requires p in Protocols
    ensures (p in RecommendedProtocols(incidentType)) != (p in OtherProtocols(incidentType))
  {
  }

  lemma OtherProtocolsFromTable(incidentType: Option<string>, p: Protocol)
    requires p in OtherProtocols(incidentType)
    ensures p in Protocols && p !in RecommendedProtocols(incidentType)
  {
  }

  /** On the page the incident type is "Cardiac": CPR and safe positioning, and the reset picks CPR. */
  lemma PageRecommendsCpr()
    ensures IdsFor("Cardiac") == Some(["cpr", "safe-positioning"])
    ensures ResetTarget(Some("Cardiac")) == "cpr"
  {
    assert Lower("Cardiac") == "cardiac";
    FilterNeverEmpty(Some("Cardiac"));
    FilterHead(Protocols, p => Recommends(Some("Cardiac"), p));
  }

  datatype Badge = ErrorBadge | WarningBadge | PrimaryBadge | MutedBadge
  datatype PriorityConfig = PriorityConfig(badge: Badge, pulse: bool)

  /** `getPriorityConfig` */
  function PriorityConfigOf(priority: string): PriorityConfig
  {
    if priority == "CRITICAL" then PriorityConfig(ErrorBadge, true)
    else if priority == "HIGH" then PriorityConfig(WarningBadge, false)
    else if priority == "MEDIUM" then PriorityConfig(PrimaryBadge, false)
    else PriorityConfig(MutedBadge, false)
  }

  /**
   * Only CRITICAL badges pulse, and in the table those are exactly the
   * protocols recommended when the incident type is unknown.
   */
  lemma PulseMarksDefaultRecommendation(p: Protocol)
    requires p in Protocols
    ensures PriorityConfigOf(p.priority).pulse <==> p in RecommendedProtocols(None)
  {
    RecommendedForOtherType(None, p);
  }
}
