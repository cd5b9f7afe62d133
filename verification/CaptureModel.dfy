/** The saved form of a selection: capture, manifest and automatic-incident metadata. */
module CaptureModel {
  import opened Telemetry

  const FORMAT_VERSION: nat := 1

  datatype Trigger = Trigger(family: string, reason: string, count: nat, threshold: nat,
                             firstStart: nat, lastEnd: nat)

  datatype Incident = Incident(detected: nat, end: nat, before: nat, after: nat, triggers: seq<Trigger>)

  const CRITICAL_LATENCY := "critical_latency"
  const OOM_VICTIM := "oom_victim"

  /** A trigger is internally consistent and lies before the incident's end. */
  predicate ValidTrigger(t: Trigger, end: nat) {
    t.count > 0 && t.firstStart < t.lastEnd <= end &&
    (((t.family == BLOCK_IO || t.family == SCHEDULER) && t.reason == CRITICAL_LATENCY && t.threshold != 0) ||
     (t.family == OOM && t.reason == OOM_VICTIM && t.threshold == 0))
  }

  predicate DistinctFamilies(ts: seq<Trigger>) {
    forall i, j :: 0 <= i < j < |ts| ==> ts[i].family != ts[j].family
  }

  /** Bounded, consistent metadata of an incident that ends with its capture. */
  predicate ValidIncident(a: Incident, end: nat) {
    a.before != 0 && a.detected <= a.end == end && a.end - a.detected == a.after &&
    0 < |a.triggers| <= 3 && DistinctFamilies(a.triggers) &&
    forall t :: t in a.triggers ==> ValidTrigger(t, a.end)
  }

  /** The reader's single pass over the triggers decides exactly `ValidIncident`. */
  method Validate(a: Incident, end: nat) returns (ok: bool)
    ensures ok <==> ValidIncident(a, end)
  {
    if a.before == 0 || a.detected > a.end || a.end != end || a.end - a.detected != a.after ||
       |a.triggers| == 0 || |a.triggers| > 3 {
      return false;
    }
    var seen: set<string> := {};
    for i := 0 to |a.triggers|
      invariant seen == set k | 0 <= k < i :: a.triggers[k].family
      invariant forall k :: 0 <= k < i ==> ValidTrigger(a.triggers[k], a.end)
      invariant forall j, k :: 0 <= j < k < i ==> a.triggers[j].family != a.triggers[k].family
    {
      var t := a.triggers[i];
      assert t in a.triggers;
      if t.family in seen || t.count == 0 || t.firstStart >= t.lastEnd || t.lastEnd > a.end {
        return false;
      }
      seen := seen + {t.family};
      if t.family == BLOCK_IO || t.family == SCHEDULER {
        if t.reason != CRITICAL_LATENCY || t.threshold == 0 {
          return false;
        }
      } else if t.family == OOM {
        if t.reason != OOM_VICTIM || t.threshold != 0 {
          return false;
        }
      } else {
        return false;
      }
    }
    return true;
  }

  datatype Manifest = Manifest(formatVersion: nat, start: nat, end: nat, requestedStart: nat,
                               recordingStart: nat, aggregateOnlyUntil: nat, incident: Option<Incident>)

  datatype Host = Host(clockSource: string, anchored: bool)

  /** A saved segment. */
  datatype Piece = Piece(start: nat, end: nat, events: seq<Event>, metrics: seq<Metric>)

  datatype Capture = Capture(manifest: Manifest, host: Host, segments: seq<Piece>)

  function PieceEvents(ps: seq<Piece>): seq<Event> {
    if |ps| == 0 then [] else ps[0].events + PieceEvents(ps[1..])
  }

  function PieceMetrics(ps: seq<Piece>): seq<Metric> {
    if |ps| == 0 then [] else ps[0].metrics + PieceMetrics(ps[1..])
  }

  predicate ValidClock(h: Host) {
    (h.clockSource == "boottime" || h.clockSource == "synthetic") && h.anchored
  }

  /** Every time-window rule the reader enforces on a decoded capture. */
  predicate WindowsAgree(c: Capture) {
    var m := c.manifest;
    m.start <= m.end && m.requestedStart <= m.end && m.recordingStart <= m.start &&
    (m.requestedStart > m.start ==> m.aggregateOnlyUntil > m.requestedStart) &&
    (m.aggregateOnlyUntil != 0 ==> m.start <= m.aggregateOnlyUntil <= m.end) &&
    (m.incident.Some? ==> ValidIncident(m.incident.value, m.end)) &&
    forall p :: p in c.segments ==>
      (forall e :: e in p.events ==> m.start <= e.mono <= m.end) &&
      (forall x :: x in p.metrics ==> m.start <= x.start <= x.end <= m.end)
  }
}
