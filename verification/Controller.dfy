/** Automatic incident scheduling: one current window, one waiting window. */
module ControllerSpec {
  import opened Telemetry
  import opened CaptureModel

  datatype Config = Config(before: nat, after: nat, blockCritical: nat, schedulerCritical: nat)

  datatype Control = Control(config: Config, sensors: seq<string>, detected: nat, coalesced: nat,
                             saved: nat, failures: nat,
                             current: Option<Incident>, next: Option<Incident>,
                             currentReady: nat, nextReady: nat,
                             writing: bool, writingEnd: nat, lastSavedEnd: nat)

  function New(config: Config, sensors: seq<string>): Control {
    Control(config, sensors, 0, 0, 0, 0, None, None, 0, 0, false, 0, 0)
  }

  /** How many trigger observations a metric carries; only three families trigger. */
  function Weight(m: Metric): nat {
    if m.family == BLOCK_IO || m.family == SCHEDULER then m.tally[CRITICAL]
    else if m.family == OOM then m.tally[COUNT] else 0
  }

  function Threshold(c: Config, family: string): nat {
    if family == BLOCK_IO then c.blockCritical else if family == SCHEDULER then c.schedulerCritical else 0
  }

  function Reason(family: string): string {
    if family == OOM then OOM_VICTIM else CRITICAL_LATENCY
  }

  function NewIncident(c: Config, now: nat): Incident {
    Incident(now, now + c.after, c.before, c.after, [])
  }

  function FamilyIndex(ts: seq<Trigger>, family: string): (i: nat)
    ensures i <= |ts|
    ensures i < |ts| ==> ts[i].family == family
    ensures forall k :: 0 <= k < i ==> ts[k].family != family
  {
    if |ts| == 0 || ts[0].family == family then 0 else 1 + FamilyIndex(ts[1..], family)
  }

  /** Add a metric's observations to the incident's trigger of that family. */
  function Note(c: Config, a: Incident, m: Metric): Incident {
    var ts := a.triggers;
    var i := FamilyIndex(ts, m.family);
    a.(triggers :=
      if i < |ts| then ts[i := ts[i].(count := ts[i].count + Weight(m), lastEnd := m.end)]
      else ts + [Trigger(m.family, Reason(m.family), Weight(m), Threshold(c, m.family), m.start, m.end)])
  }

  predicate Triggers(s: Control, m: Metric) {
    m.start < m.end && m.family in s.sensors && Weight(m) > 0
  }

  /** The waiting window stretched to cover a trigger seen at `now`. */
  function Extend(c: Config, a: Incident, now: nat): Incident
    requires a.detected <= now
  {
    if now + c.after > a.end then a.(end := now + c.after, after := now + c.after - a.detected) else a
  }

  function Observe(s: Control, m: Metric, now: nat): Control
    requires s.next.Some? ==> s.next.value.detected <= now
  {
    if !Triggers(s, m) then s
    else
      var n := Weight(m);
      var t := s.(detected := s.detected + n);
      if s.current.None? then
        t.(current := Some(Note(s.config, NewIncident(s.config, now), m)), coalesced := s.coalesced + n - 1)
      else if now <= s.current.value.end then
        t.(current := Some(Note(s.config, s.current.value, m)), coalesced := s.coalesced + n)
      else if s.next.None? then
        t.(next := Some(Note(s.config, NewIncident(s.config, now), m)), coalesced := s.coalesced + n - 1)
      else
        t.(next := Some(Note(s.config, Extend(s.config, s.next.value, now), m)),
           nextReady := if now + s.config.after > s.next.value.end then 0 else s.nextReady,
           coalesced := s.coalesced + n)
  }

  function CollectedThrough(s: Control, end: nat): Control {
    s.(currentReady := if s.current.Some? && s.currentReady == 0 && end >= s.current.value.end
        then end else s.currentReady,
       nextReady := if s.next.Some? && s.nextReady == 0 && end >= s.next.value.end then end else s.nextReady)
  }

  /** The incident handed to the writer: its end is moved to the first complete poll past it. */
  function Chosen(s: Control): Incident
    requires s.current.Some? && s.current.value.detected <= s.current.value.end
  {
    var a := s.current.value;
    if s.currentReady > a.end then a.(end := s.currentReady, after := s.currentReady - a.detected) else a
  }

  function Lookback(a: Incident, lastSavedEnd: nat): nat {
    Max(if a.detected > a.before then a.detected - a.before else 0, lastSavedEnd)
  }

  /** The boundary moved back to the earliest trigger interval that straddles it. */
  function Straddled(ts: seq<Trigger>, boundary: nat): (r: nat)
    ensures r <= boundary
    ensures forall t :: t in ts && t.firstStart < boundary <= t.lastEnd ==> r <= t.firstStart
    ensures r < boundary ==> exists t :: t in ts && t.firstStart == r && t.firstStart < boundary <= t.lastEnd
  {
    if |ts| == 0 then boundary
    else
      var r := Straddled(ts[..|ts| - 1], boundary);
      var t := ts[|ts| - 1];
      if t.firstStart < boundary && t.lastEnd >= boundary then Min(r, t.firstStart) else r
  }

  function WindowStart(s: Control): nat
    requires s.current.Some? && s.current.value.detected <= s.current.value.end
  {
    Straddled(s.current.value.triggers, Lookback(s.current.value, s.lastSavedEnd))
  }

  function Begin(s: Control): Control
    requires s.current.Some? && s.current.value.detected <= s.current.value.end
  {
    s.(current := s.next, next := None, currentReady := s.nextReady, nextReady := 0,
       writing := true, writingEnd := Chosen(s).end)
  }

  /** `published` tells that a path was returned; rotation may fail after publication. */
  function Finish(s: Control, published: bool, failed: bool): Control {
    s.(writing := false, writingEnd := 0,
       saved := s.saved + (if published then 1 else 0),
       lastSavedEnd := if published then s.writingEnd else s.lastSavedEnd,
       failures := s.failures + if failed then 1 else 0)
  }

  function Without(sensors: seq<string>, family: string): (r: seq<string>)
    ensures family !in r && forall x :: x in r <==> x in sensors && x != family
  {
    if |sensors| == 0 then []
    else
      var n := |sensors| - 1;
      assert forall x :: x in sensors <==> x in sensors[..n] || x == sensors[n];
      Without(sensors[..n], family) + if sensors[n] == family then [] else [sensors[n]]
  }

  function Unavailable(s: Control, family: string): Control {
    s.(sensors := Without(s.sensors, family))
  }

  /** A lost sensor triggers nothing more; every other sensor triggers as before. */
  lemma LostNeverTriggers(s: Control, family: string, m: Metric)
    ensures Triggers(Unavailable(s, family), m) <==> Triggers(s, m) && m.family != family
  {
  }
}

/** The controller as the recorder loop owns it. */
module Controller {
  import opened Telemetry
  import opened CaptureModel
  import opened ControllerSpec

  class Controller {
    const config: Config
    var sensors: seq<string>
    var detected: nat
    var coalesced: nat
    var saved: nat
    var failures: nat
    var current: Option<Incident>
    var next: Option<Incident>
    var currentReady: nat
    var nextReady: nat
    var writing: bool
    var writingEnd: nat
    var lastSavedEnd: nat

    function State(): Control
      reads this
    {
      Control(config, sensors, detected, coalesced, saved, failures, current, next,
              currentReady, nextReady, writing, writingEnd, lastSavedEnd)
    }

    constructor (config: Config, sensors: seq<string>)
      ensures State() == ControllerSpec.New(config, sensors)
    {
      this.config, this.sensors := config, sensors;
      detected, coalesced, saved, failures := 0, 0, 0, 0;
      current, next, currentReady, nextReady := None, None, 0, 0;
      writing, writingEnd, lastSavedEnd := false, 0, 0;
    }

    method Observe(m: Metric, now: nat)
      requires next.Some? ==> next.value.detected <= now
      modifies this
      ensures State() == ControllerSpec.Observe(old(State()), m, now)
    {
      if m.end <= m.start || m.family !in sensors {
        return;
      }
      var trigger := Classify(m);
      if trigger.Some? && trigger.value.count > 0 {
        Schedule(m, trigger.value, now);
      }
    }

    /** What a metric says as a trigger; tcp never triggers. */
    method Classify(m: Metric) returns (t: Option<Trigger>)
      ensures t.None? ==> Weight(m) == 0
      ensures t.Some? ==> t.value == Trigger(m.family, Reason(m.family), Weight(m),
          Threshold(config, m.family), m.start, m.end)
    {
      var n, threshold, reason := m.tally[CRITICAL], 0, CRITICAL_LATENCY;
      if m.family == BLOCK_IO {
        threshold := config.blockCritical;
      } else if m.family == SCHEDULER {
        threshold := config.schedulerCritical;
      } else if m.family == OOM {
        n, reason := m.tally[COUNT], OOM_VICTIM;
      } else {
        return None;
      }
      return Some(Trigger(m.family, reason, n, threshold, m.start, m.end));
    }

    /** Open a window, stretch the waiting one, or merge into an open one. */
    method Schedule(m: Metric, trigger: Trigger, now: nat)
      requires next.Some? ==> next.value.detected <= now
      requires Triggers(State(), m)
      requires trigger == Trigger(m.family, Reason(m.family), Weight(m), Threshold(config, m.family), m.start, m.end)
      modifies this
      ensures State() == ControllerSpec.Observe(old(State()), m, now)
    {
      var n := trigger.count;
      hide Note, Weight, Threshold, Reason;
      if current.None? {
        var a := Record(NewIncident(config, now), m, trigger);
        Update(Some(a), next, nextReady, n, n - 1);
      } else if now > current.value.end {
        var incident, ready, merged := NewIncident(config, now), nextReady, n - 1;
        if next.Some? {
          incident, merged := next.value, n;
          var end := now + config.after;
          if end > incident.end {
            incident := incident.(end := end, after := end - incident.detected);
            ready := 0;
          }
        }
        var a := Record(incident, m, trigger);
        Update(current, Some(a), ready, n, merged);
      } else {
        var a := Record(current.value, m, trigger);
        Update(Some(a), next, nextReady, n, n);
      }
    }

    /** Install the changed windows and count `n` detections, `merged` of them coalesced. */
    method Update(current': Option<Incident>, next': Option<Incident>, ready: nat, n: nat, merged: nat)
      modifies this
      ensures State() == old(State()).(current := current', next := next', nextReady := ready,
                                       detected := old(detected) + n, coalesced := old(coalesced) + merged)
    {
      current, next, nextReady := current', next', ready;
      detected, coalesced := detected + n, coalesced + merged;
    }

    /** Merge a trigger into the incident's entry of its family, or append it. */
    method Record(a: Incident, m: Metric, t: Trigger) returns (r: Incident)
      requires t == Trigger(m.family, Reason(m.family), Weight(m), Threshold(config, m.family), m.start, m.end)
      ensures r == Note(config, a, m)
    {
      for i := 0 to |a.triggers|
        invariant forall k :: 0 <= k < i ==> a.triggers[k].family != m.family
      {
        var x := a.triggers[i];
        if x.family == m.family {
          assert FamilyIndex(a.triggers, m.family) == i;
          return a.(triggers := a.triggers[i := x.(count := x.count + t.count, lastEnd := m.end)]);
        }
      }
      return a.(triggers := a.triggers + [t]);
    }

    /** The pending deadline, when a window waits and no writer is busy. */
    method Deadline() returns (end: nat, pending: bool)
      ensures pending <==> current.Some? && !writing
      ensures pending ==> end == current.value.end
    {
      if current.None? || writing {
        return 0, false;
      }
      return current.value.end, true;
    }

    method CollectedThrough(end: nat)
      modifies this
      ensures State() == ControllerSpec.CollectedThrough(old(State()), end)
    {
      if current.Some? && currentReady == 0 && end >= current.value.end {
        currentReady := end;
      }
      if next.Some? && nextReady == 0 && end >= next.value.end {
        nextReady := end;
      }
    }

    method Begin() returns (v: Incident, start: nat)
      requires current.Some? && current.value.detected <= current.value.end
      modifies this
      ensures v == Chosen(old(State())) && start == WindowStart(old(State()))
      ensures State() == ControllerSpec.Begin(old(State()))
    {
      v := current.value;
      if currentReady > v.end {
        v := v.(end := currentReady, after := currentReady - v.detected);
      }
      var boundary := 0;
      if v.detected > v.before {
        boundary := v.detected - v.before;
      }
      if boundary < lastSavedEnd {
        boundary := lastSavedEnd;
      }
      start := WidenStart(v, boundary);
      Promote(v.end);
    }

    /** The waiting window becomes current while the chosen one is written. */
    method Promote(end: nat)
      modifies this
      ensures State() == old(State()).(current := old(next), next := None, currentReady := old(nextReady),
                                       nextReady := 0, writing := true, writingEnd := end)
    {
      current, next := next, None;
      currentReady, nextReady := nextReady, 0;
      writing := true;
      writingEnd := end;
    }

    /** Include a complete trigger interval that straddles the boundary. */
    method WidenStart(v: Incident, boundary: nat) returns (start: nat)
      ensures start == Straddled(v.triggers, boundary)
    {
      start := boundary;
      for i := 0 to |v.triggers|
        invariant start == Straddled(v.triggers[..i], boundary)
      {
        assert v.triggers[..i + 1][..i] == v.triggers[..i];
        if v.triggers[i].firstStart < boundary && v.triggers[i].lastEnd >= boundary {
          start := Min(start, v.triggers[i].firstStart);
        }
      }
      assert v.triggers[..|v.triggers|] == v.triggers;
    }

    method Finish(published: bool, failed: bool)
      modifies this
      ensures State() == ControllerSpec.Finish(old(State()), published, failed)
    {
      writing := false;
      if published {
        saved := saved + 1;
        lastSavedEnd := writingEnd;
      }
      writingEnd := 0;
      if failed {
        failures := failures + 1;
      }
    }

    method Unavailable(family: string)
      modifies this
      ensures State() == ControllerSpec.Unavailable(old(State()), family)
      ensures family !in sensors && forall x :: x in sensors <==> x in old(sensors) && x != family
    {
      var kept: seq<string> := [];
      for i := 0 to |sensors|
        invariant kept == Without(sensors[..i], family) && sensors == old(sensors)
        invariant State() == old(State())
      {
        assert sensors[..i + 1][..i] == sensors[..i];
        if sensors[i] != family {
          kept := kept + [sensors[i]];
        }
      }
      assert sensors[..|sensors|] == sensors;
      sensors := kept;
    }
  }
}
