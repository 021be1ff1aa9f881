/** The alert and incident decision table: what a rule is, and the rules shipped. */
module AlertRules {
  import opened Wrappers

  const SEVERITIES: set<string> := {"info", "low", "medium", "high", "critical"}

  datatype AlertRule = AlertRule(severity: string, createIncident: bool, incidentSeverity: Option<string>)

  /** What __post_init__ accepts. */
  predicate WellFormed(r: AlertRule) {
    r.severity in SEVERITIES && (r.createIncident <==> r.incidentSeverity.Some?)
  }

  /** The constructor: a rule, or the ValueError. */
  function Make(severity: string, createIncident: bool, incidentSeverity: Option<string>): (r: Option<AlertRule>)
    ensures r.Some? <==> WellFormed(AlertRule(severity, createIncident, incidentSeverity))
    ensures r.Some? ==> r.value == AlertRule(severity, createIncident, incidentSeverity)
  {
    if severity !in SEVERITIES then None
    else if createIncident && incidentSeverity.None? then None
    else if !createIncident && incidentSeverity.Some? then None
    else Some(AlertRule(severity, createIncident, incidentSeverity))
  }

  /** The incident's severity is not looked up among the severities. */
  lemma IncidentSeverityIsNotChecked()
    ensures Make("high", true, Some("severe")).Some? && "severe" !in SEVERITIES
  {
  }

  function Alerting(severity: string): AlertRule { AlertRule(severity, false, None) }

  function Escalating(severity: string): AlertRule { AlertRule(severity, true, Some(severity)) }

  function ZoneRule(zone: string): Option<AlertRule> {
    if zone == "zone_low" then Some(Alerting("low"))
    else if zone == "zone_medium" then Some(Alerting("medium"))
    else if zone == "zone_high" then Some(Escalating("high"))
    else if zone == "zone_critical" then Some(Escalating("critical"))
    else None
  }

  function WatchlistRule(trigger: string, block: string): Option<AlertRule> {
    if trigger == "block" then Some(Escalating(block))
    else if trigger == "allow" then Some(Alerting("low"))
    else None
  }

  function ThreatRule(moduleType: string, trigger: string): Option<AlertRule> {
    if moduleType == "weapon" then
      if trigger == "firearm" then Some(Escalating("critical"))
      else if trigger == "blade" then Some(Escalating("high"))
      else if trigger == "blunt" then Some(Alerting("medium"))
      else None
    else if moduleType == "behavior" then
      if trigger == "loitering" then Some(Alerting("medium"))
      else if trigger == "running" then Some(Alerting("low"))
      else if trigger == "aggression" then Some(Escalating("critical"))
      else if trigger == "tailgating" then Some(Escalating("high"))
      else None
    else if moduleType == "fire_smoke" then
      if trigger == "fire" then Some(Escalating("critical"))
      else if trigger == "smoke" then Some(Escalating("high"))
      else None
    else None
  }

  function SingleRule(moduleType: string, trigger: string): Option<AlertRule> {
    if moduleType == "ppe" && trigger == "violation" then Some(Escalating("high"))
    else if (moduleType == "tampering" || moduleType == "fall") && trigger == "detected" then Some(Escalating("high"))
    else if moduleType == "abandoned" && trigger == "detected" then Some(Alerting("medium"))
    else None
  }

  /** The table shipped: module, trigger and severity. */
  const SHIPPED: seq<(string, string, string)> := [
    ("lpr", "block", "critical"), ("lpr", "allow", "low"), ("face", "block", "high"), ("face", "allow", "low"),
    ("face", "unrecognized", "info"), ("intrusion", "zone_low", "low"), ("intrusion", "zone_medium", "medium"),
    ("intrusion", "zone_high", "high"), ("intrusion", "zone_critical", "critical"), ("crowd", "zone_low", "low"),
    ("crowd", "zone_medium", "medium"), ("crowd", "zone_high", "high"), ("crowd", "zone_critical", "critical"),
    ("weapon", "firearm", "critical"), ("weapon", "blade", "high"), ("weapon", "blunt", "medium"),
    ("behavior", "loitering", "medium"), ("behavior", "running", "low"), ("behavior", "aggression", "critical"),
    ("behavior", "tailgating", "high"), ("fire_smoke", "fire", "critical"), ("fire_smoke", "smoke", "high"),
    ("ppe", "violation", "high"), ("tampering", "detected", "high"), ("fall", "detected", "high"),
    ("abandoned", "detected", "medium")]

  /** get_default_rule: the shipped rule, or None where nothing is to be alerted. */
  function DefaultRule(moduleType: string, trigger: string): (r: Option<AlertRule>)
    ensures r.Some? ==> WellFormed(r.value)
    ensures r.Some? ==> (r.value.createIncident <==> r.value.severity in {"high", "critical"})
    ensures r.Some? && r.value.createIncident ==> r.value.incidentSeverity == Some(r.value.severity)
  {
    if moduleType == "lpr" then WatchlistRule(trigger, "critical")
    else if moduleType == "face" then
      if trigger == "unrecognized" then Some(Alerting("info")) else WatchlistRule(trigger, "high")
    else if moduleType == "intrusion" || moduleType == "crowd" then ZoneRule(trigger)
    else if moduleType == "weapon" || moduleType == "behavior" || moduleType == "fire_smoke"
    then ThreatRule(moduleType, trigger)
    else SingleRule(moduleType, trigger)
  }

  ghost predicate IsDefault(i: nat)
    requires i < |SHIPPED|
  {
    var rule := DefaultRule(SHIPPED[i].0, SHIPPED[i].1);
    rule.Some? && rule.value.severity == SHIPPED[i].2
  }

  lemma FirstShipped(i: nat)
    requires i < 9
    ensures IsDefault(i)
  {
  }

  lemma NextShipped(i: nat)
    requires 9 <= i < 18
    ensures IsDefault(i)
  {
  }

  lemma LastShipped(i: nat)
    requires 18 <= i < |SHIPPED|
    ensures IsDefault(i)
  {
  }

  /** Each of the table's rules is the default, with its severity. */
  lemma ShippedAreDefaults(i: nat)
    requires i < |SHIPPED|
    ensures var rule := DefaultRule(SHIPPED[i].0, SHIPPED[i].1); rule.Some? && rule.value.severity == SHIPPED[i].2
  {
    if i < 9 { FirstShipped(i); } else if i < 18 { NextShipped(i); } else { LastShipped(i); }
    assert IsDefault(i);
  }
}
