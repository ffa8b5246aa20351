/** What systemd says of a unit, and the classifications the applier and the health loop share
    (pkg/applier/applier.go). */
module Units {
  import opened Paths

  datatype UnitStatus = UnitStatus(
    activeState: string, unitFileState: string, triggeredBy: seq<string>, serviceType: string)

  predicate IsTimerUnit(unit: string) { HasSuffix(unit, ".timer") }

  /** IsPassiveUnit: an activator without a process of its own. */
  predicate IsPassiveUnit(unit: string) {
    IsTimerUnit(unit) || HasSuffix(unit, ".socket") || HasSuffix(unit, ".target") || HasSuffix(unit, ".path")
  }

  predicate TimerTriggered(s: UnitStatus) { exists t | t in s.triggeredBy :: IsTimerUnit(t) }

  /** systemd runs this one-shot job: a timer fires it, or it is a raw unit without [Install]. */
  predicate ExternallyActivated(s: UnitStatus) {
    s.serviceType == "oneshot" && (TimerTriggered(s) || s.unitFileState == "static")
  }
}
