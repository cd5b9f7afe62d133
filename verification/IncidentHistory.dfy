/** Each incident and each window in terms of the polled metrics alone: which of them fire, which
    incident each of them belongs to, and what the incident then says. */
module IncidentHistory {
  import opened Telemetry
  import opened CaptureModel
  import C = ControllerRuns
  import Spec = ControllerSpec

  // ----- which metrics fire -----

  /** The observations a poll brings: critical latencies, or victims of the out-of-memory killer. */
  function Observations(m: Metric): nat {
    if m.family == "block_io" || m.family == "scheduler" then m.tally[CRITICAL]
    else if m.family == "oom" then m.tally[COUNT]
    else 0
  }

  function SetOf(sensors: seq<string>): set<string> {
    set f | f in sensors
  }

  /** A real interval of a sensor in use, with at least one observation. */
  predicate Fires(sensors: set<string>, m: Metric) {
    m.start < m.end && m.family in sensors && Observations(m) > 0
  }

  function FiredOne(sensors: set<string>, m: Metric): seq<Metric> {
    if Fires(sensors, m) then [m] else []
  }

  function Firing(sensors: set<string>, ms: seq<Metric>): seq<Metric> {
    if |ms| == 0 then [] else FiredOne(sensors, ms[0]) + Firing(sensors, ms[1..])
  }

  function FiredBy(sensors: set<string>, a: C.Action): seq<Metric> {
    if a.Poll? then Firing(sensors, a.metrics) else []
  }

  function Left(sensors: set<string>, a: C.Action): set<string> {
    if a.SensorLost? then sensors - {a.family} else sensors
  }

  /** The polled metrics that fire along a run: those of a lost sensor no longer do. */
  function Fired(sensors: set<string>, acts: seq<C.Action>): seq<Metric> {
    if |acts| == 0 then [] else FiredBy(sensors, acts[0]) + Fired(Left(sensors, acts[0]), acts[1..])
  }

  function PollBy(a: C.Action): seq<nat> {
    if a.Poll? then [a.t] else []
  }

  function Polls(acts: seq<C.Action>): seq<nat> {
    if |acts| == 0 then [] else PollBy(acts[0]) + Polls(acts[1..])
  }

  function Total(ms: seq<Metric>): nat {
    if |ms| == 0 then 0 else Total(ms[..|ms| - 1]) + Observations(ms[|ms| - 1])
  }

  // ----- what an incident says of its metrics -----

  /** The metrics of one incident; the first `waited` came while it waited behind another. */
  datatype Group = Group(metrics: seq<Metric>, waited: nat)

  function TotalOf(ms: seq<Metric>, family: string): nat {
    if |ms| == 0 then 0
    else
      var m := ms[|ms| - 1];
      TotalOf(ms[..|ms| - 1], family) + if m.family == family then Observations(m) else 0
  }

  function FirstStart(ms: seq<Metric>, family: string): Option<nat> {
    if |ms| == 0 then None
    else
      var earlier, m := FirstStart(ms[..|ms| - 1], family), ms[|ms| - 1];
      if earlier.Some? then earlier else if m.family == family then Some(m.start) else None
  }

  function LastEnd(ms: seq<Metric>, family: string): Option<nat> {
    if |ms| == 0 then None
    else
      var m := ms[|ms| - 1];
      if m.family == family then Some(m.end) else LastEnd(ms[..|ms| - 1], family)
  }

  /** A trigger counts its family's observations, spans them from the first start to the last end,
      and names why they count. */
  predicate TriggerTold(c: Spec.Config, t: Trigger, ms: seq<Metric>) {
    t.count == TotalOf(ms, t.family) && FirstStart(ms, t.family) == Some(t.firstStart) &&
    LastEnd(ms, t.family) == Some(t.lastEnd) &&
    match t.family
    case "block_io" => t.reason == "critical_latency" && t.threshold == c.blockCritical
    case "scheduler" => t.reason == "critical_latency" && t.threshold == c.schedulerCritical
    case "oom" => t.reason == "oom_victim" && t.threshold == 0
    case _ => false
  }

  /** One trigger for each family among the metrics. */
  predicate TriggersTold(c: Spec.Config, ts: seq<Trigger>, ms: seq<Metric>) {
    DistinctFamilies(ts) && (forall t :: t in ts ==> TriggerTold(c, t, ms)) &&
    forall m :: m in ms ==> exists t :: t in ts && t.family == m.family
  }

  predicate Grouped(g: Group) {
    |g.metrics| > 0 && g.waited <= |g.metrics|
  }

  /** `after` past the first metric, or past the last one that came while the incident waited. */
  function Deadline(c: Spec.Config, g: Group): nat
    requires Grouped(g)
  {
    g.metrics[if g.waited > 0 then g.waited - 1 else 0].end + c.after
  }

  /** An incident is detected at the end of its first metric and lasts up to its deadline; a metric
      that did not wait came no later than that. */
  predicate Told(c: Spec.Config, a: Incident, g: Group) {
    Grouped(g) && a.detected == g.metrics[0].end && a.before == c.before &&
    a.end == Deadline(c, g) && a.after == a.end - a.detected && TriggersTold(c, a.triggers, g.metrics) &&
    forall k :: g.waited <= k < |g.metrics| ==> g.metrics[k].end <= a.end
  }

  lemma TotalAppend(ms: seq<Metric>, m: Metric, family: string)
    ensures TotalOf(ms + [m], family) == TotalOf(ms, family) + if m.family == family then Observations(m) else 0
    ensures FirstStart(ms + [m], family) ==
              if FirstStart(ms, family).Some? then FirstStart(ms, family)
              else if m.family == family then Some(m.start) else None
    ensures LastEnd(ms + [m], family) == if m.family == family then Some(m.end) else LastEnd(ms, family)
    ensures Total(ms + [m]) == Total(ms) + Observations(m)
  {
    assert (ms + [m])[..|ms|] == ms;
  }

  /** A family without trigger has no metric. */
  lemma {:induction false} NoneOf(ms: seq<Metric>, family: string)
    requires forall m :: m in ms ==> m.family != family
    ensures TotalOf(ms, family) == 0 && FirstStart(ms, family) == None && LastEnd(ms, family) == None
  {
    if |ms| > 0 {
      NoneOf(ms[..|ms| - 1], family);
    }
  }

  lemma NoteTold(c: Spec.Config, a: Incident, ms: seq<Metric>, m: Metric)
    requires TriggersTold(c, a.triggers, ms) && Observations(m) > 0
    ensures TriggersTold(c, Spec.Note(c, a, m).triggers, ms + [m])
  {
    hide TotalOf, FirstStart, LastEnd, Observations, Spec.Note, DistinctFamilies, ReplacedAt;
    var ts, us, i := a.triggers, Spec.Note(c, a, m).triggers, Spec.FamilyIndex(a.triggers, m.family);
    NoteFamilies(c, a, m);
    ReplacedFamilies(ts, us, i, m.family);
    forall t | t in us ensures TriggerTold(c, t, ms + [m]) {
      TotalAppend(ms, m, t.family);
      if t.family == m.family {
        NotedTold(c, a, ms, m, t);
      } else {
        assert t in ts && TriggerTold(c, t, ms);
      }
    }
    HeldFamily(ts, us, i, m.family);
    forall x | x in ms + [m] ensures exists t :: t in us && t.family == x.family {
      if x in ms {
        var t :| t in ts && t.family == x.family;
        assert t.family != m.family ==> t in us;
      }
    }
  }

  lemma HeldFamily(ts: seq<Trigger>, us: seq<Trigger>, i: nat, family: string)
    requires ReplacedAt(ts, us, i, family)
    ensures exists t :: t in us && t.family == family
  {
    assert us[i] in us;
  }

  /** `us` is `ts` with another trigger of the family at `i`, its only one. */
  predicate ReplacedAt(ts: seq<Trigger>, us: seq<Trigger>, i: nat, family: string) {
    i <= |ts| && |us| == (if i < |ts| then |ts| else |ts| + 1) && us[i].family == family &&
    (forall k :: 0 <= k < |ts| && k != i ==> us[k] == ts[k] && ts[k].family != family) &&
    (i < |ts| ==> ts[i].family == family)
  }

  /** Noting a metric changes its family's trigger only. */
  lemma NoteFamilies(c: Spec.Config, a: Incident, m: Metric)
    requires DistinctFamilies(a.triggers)
    ensures ReplacedAt(a.triggers, Spec.Note(c, a, m).triggers, Spec.FamilyIndex(a.triggers, m.family), m.family)
  {
    hide Spec.Weight, Spec.Threshold, Spec.Reason;
    var ts, i := a.triggers, Spec.FamilyIndex(a.triggers, m.family);
    forall k | i < k < |ts| ensures ts[k].family != m.family {
      assert ts[i].family != ts[k].family;
    }
  }

  lemma ReplacedFamilies(ts: seq<Trigger>, us: seq<Trigger>, i: nat, family: string)
    requires DistinctFamilies(ts) && ReplacedAt(ts, us, i, family)
    ensures DistinctFamilies(us) && us[i] in us
    ensures forall t :: t in us && t.family != family ==> t in ts
    ensures forall t :: t in ts && t.family != family ==> t in us
  {
    forall t | t in us && t.family != family ensures t in ts {
      var k :| 0 <= k < |us| && us[k] == t;
      assert us[k] == ts[k];
    }
    forall t | t in ts && t.family != family ensures t in us {
      var k :| 0 <= k < |ts| && ts[k] == t;
      assert us[k] == ts[k];
    }
    forall j, k | 0 <= j < k < |us| ensures us[j].family != us[k].family {
      assert k < |ts| ==> ts[j].family != ts[k].family;
    }
  }

  lemma NotedTold(c: Spec.Config, a: Incident, ms: seq<Metric>, m: Metric, t: Trigger)
    requires TriggersTold(c, a.triggers, ms) && Observations(m) > 0
    requires t in Spec.Note(c, a, m).triggers && t.family == m.family
    ensures TriggerTold(c, t, ms + [m])
  {
    hide TotalOf, FirstStart, LastEnd;
    TotalAppend(ms, m, m.family);
    var i := Spec.FamilyIndex(a.triggers, m.family);
    if i < |a.triggers| {
      assert a.triggers[i] in a.triggers && TriggerTold(c, a.triggers[i], ms);
    } else {
      NoneOf(ms, m.family);
    }
  }

  lemma FiresIsTriggers(c: Spec.Control, m: Metric)
    ensures Fires(SetOf(c.sensors), m) <==> Spec.Triggers(c, m)
    ensures Spec.Weight(m) == Observations(m)
  {
  }

  lemma NothingTold(c: Spec.Config)
    ensures TriggersTold(c, [], [])
  {
  }

  lemma NoteKeeps(c: Spec.Config, a: Incident, m: Metric)
    ensures var r := Spec.Note(c, a, m); r == a.(triggers := r.triggers)
  {
  }

  /** A first metric opens an incident. */
  lemma OpenedTold(c: Spec.Config, m: Metric, waited: nat)
    requires Observations(m) > 0 && waited <= 1
    ensures Told(c, Spec.Note(c, Spec.NewIncident(c, m.end), m), Group([m], waited))
  {
    hide Spec.Note, TriggersTold;
    NothingTold(c);
    NoteTold(c, Spec.NewIncident(c, m.end), [], m);
    NoteKeeps(c, Spec.NewIncident(c, m.end), m);
    assert [] + [m] == [m];
  }

  /** A metric up to the deadline joins and leaves the deadline. */
  lemma JoinedTold(c: Spec.Config, a: Incident, g: Group, m: Metric)
    requires Told(c, a, g) && Observations(m) > 0 && m.end <= a.end
    ensures Told(c, Spec.Note(c, a, m), Group(g.metrics + [m], g.waited))
  {
    hide Spec.Note, TriggersTold;
    NoteTold(c, a, g.metrics, m);
    NoteKeeps(c, a, m);
  }

  /** A metric heard by a waiting incident moves the deadline. */
  lemma StretchedTold(c: Spec.Config, a: Incident, g: Group, m: Metric)
    requires Told(c, a, g) && g.waited == |g.metrics| && Observations(m) > 0
    requires (forall x :: x in g.metrics ==> x.end <= m.end) && a.detected <= m.end
    ensures Told(c, Spec.Note(c, Spec.Extend(c, a, m.end), m), Group(g.metrics + [m], g.waited + 1))
  {
    hide Spec.Note, TriggersTold;
    assert g.metrics[|g.metrics| - 1] in g.metrics;
    NoteTold(c, Spec.Extend(c, a, m.end), g.metrics, m);
    NoteKeeps(c, Spec.Extend(c, a, m.end), m);
  }

  lemma NoteDiffers(c: Spec.Config, a: Incident, m: Metric)
    requires Observations(m) > 0
    ensures Spec.Note(c, a, m) != a
    ensures m.end >= a.detected ==> Spec.Note(c, Spec.Extend(c, a, m.end), m) != a
  {
    C.NoteCounts(c, a, m);
    if m.end >= a.detected {
      C.NoteCounts(c, Spec.Extend(c, a, m.end), m);
    }
  }

  // ----- following a run -----

  /** The metrics of each incident in the order of the incidents, the metrics that fired, and the
      times of the polls. */
  datatype Story = Story(groups: seq<Group>, fired: seq<Metric>, polls: seq<nat>)

  function Onto(gs: seq<Group>, m: Metric, waited: nat): seq<Group> {
    if |gs| == 0 then [Group([m], waited)]
    else
      var n := |gs| - 1;
      gs[..n] + [Group(gs[n].metrics + [m], gs[n].waited + waited)]
  }

  /** A metric belongs to the incident it changed. */
  function Heard(g: Story, before: Spec.Control, after: Spec.Control, m: Metric): Story {
    var gs :=
      if after.current != before.current then
        if before.current.None? then g.groups + [Group([m], 0)] else Onto(g.groups, m, 0)
      else if after.next != before.next then
        if before.next.None? then g.groups + [Group([m], 1)] else Onto(g.groups, m, 1)
      else g.groups;
    Story(gs, if Fires(SetOf(before.sensors), m) then g.fired + [m] else g.fired, g.polls)
  }

  function HeardAll(x: C.Scan, g: Story, ms: seq<Metric>, last: nat, t: nat): Story
    requires x.ctl.next.Some? ==> x.ctl.next.value.detected <= t
    decreases |ms|
  {
    if |ms| == 0 then g
    else
      C.DetectedInTime(x, ms[0], last, t);
      var y := C.ObserveOne(x, ms[0], last, t);
      HeardAll(y, Heard(g, x.ctl, y.ctl, ms[0]), ms[1..], last, t)
  }

  function Follow(s: C.Sys, g: Story, a: C.Action): Story
    requires C.Inv(s) && C.Enabled(s, a)
  {
    match a
    case Poll(t, ms) =>
      C.MidDetectedNow(s, t, ms);
      var h := HeardAll(C.Scan(s.ctl, s.prior, s.nextPrior), g, ms, s.last, t);
      h.(polls := h.polls + [t])
    case _ => g
  }

  function Flat(gs: seq<Group>): seq<Metric> {
    if |gs| == 0 then [] else Flat(gs[..|gs| - 1]) + gs[|gs| - 1].metrics
  }

  lemma FlatGrows(gs: seq<Group>, m: Metric, waited: nat)
    ensures Flat(gs + [Group([m], waited)]) == Flat(gs) + [m]
    ensures Flat(Onto(gs, m, waited)) == Flat(gs) + [m]
  {
    assert (gs + [Group([m], waited)])[..|gs|] == gs;
    if |gs| > 0 {
      var n := |gs| - 1;
      assert Onto(gs, m, waited)[..n] == gs[..n];
      assert Flat(gs[..n]) + (gs[n].metrics + [m]) == Flat(gs[..n]) + gs[n].metrics + [m];
    } else {
      assert Onto(gs, m, waited)[..0] == [];
    }
  }

  // ----- what the controller knows -----

  /** Each incident begins past the deadline of the one before. */
  predicate Apart(c: Spec.Config, gs: seq<Group>) {
    (forall i :: 0 <= i < |gs| ==> Grouped(gs[i])) &&
    forall i :: 0 <= i < |gs| - 1 ==> Deadline(c, gs[i]) < gs[i + 1].metrics[0].end
  }

  lemma ApartGrows(c: Spec.Config, gs: seq<Group>, m: Metric, waited: nat)
    requires Apart(c, gs) && waited <= 1
    ensures |gs| == 0 || Deadline(c, gs[|gs| - 1]) < m.end ==> Apart(c, gs + [Group([m], waited)])
    ensures |gs| > 0 ==> Apart(c, Onto(gs, m, waited))
  {
    if |gs| > 0 {
      var n, hs := |gs| - 1, Onto(gs, m, waited);
      assert Grouped(gs[n]);
      forall i | 0 <= i < n ensures Deadline(c, hs[i]) < hs[i + 1].metrics[0].end {
        assert hs[i] == gs[i] && Grouped(gs[i + 1]) && hs[i + 1].metrics[0] == gs[i + 1].metrics[0];
      }
    }
  }

  /** The open incidents and their groups behind the `n` begun ones. */
  predicate Open(x: Spec.Control, gs: seq<Group>, n: nat) {
    |gs| == n + C.Open(x.current) + C.Open(x.next) && (x.next.Some? ==> x.current.Some?) && Apart(x.config, gs) &&
    (x.current.Some? ==> Told(x.config, x.current.value, gs[n])) &&
    (x.next.Some? ==> Told(x.config, x.next.value, gs[n + 1]) && gs[n + 1].waited == |gs[n + 1].metrics|)
  }

  /** Every metric that fired is in one group, in order, and all are counted. */
  predicate AllTold(x: Spec.Control, g: Story, latest: nat) {
    g.fired == Flat(g.groups) && x.detected == Total(g.fired) && forall m :: m in g.fired ==> m.end <= latest
  }

  /** The begun incidents are over. */
  predicate Over(c: Spec.Config, gs: seq<Group>, n: nat, latest: nat) {
    n <= |gs| && forall i :: 0 <= i < n ==> Grouped(gs[i]) && Deadline(c, gs[i]) <= latest
  }

  lemma LastHeard(gs: seq<Group>, latest: nat)
    requires |gs| > 0 && forall m :: m in Flat(gs) ==> m.end <= latest
    ensures forall m :: m in gs[|gs| - 1].metrics ==> m.end <= latest
  {
    forall m | m in gs[|gs| - 1].metrics ensures m.end <= latest {
      assert m in Flat(gs);
    }
  }

  /** The state inside a poll at `t`, with `m` the next metric of that poll. */
  predicate Hears(x: C.Scan, g: Story, m: Metric, last: nat, t: nat, n: nat) {
    C.Mid(x, last, t) && Open(x.ctl, g.groups, n) && AllTold(x.ctl, g, t) && m.start == last && m.end == t &&
    Over(x.ctl.config, g.groups, n, last)
  }

  /** The first metric of an incident, which waits when another one is current. */
  lemma HeardFirst(x: C.Scan, g: Story, m: Metric, last: nat, t: nat, n: nat)
    requires Hears(x, g, m, last, t, n) && Fires(SetOf(x.ctl.sensors), m)
    requires x.ctl.next.None? && (x.ctl.current.None? || t > x.ctl.current.value.end)
    ensures var y := C.ObserveOne(x, m, last, t);
            Open(y.ctl, g.groups + [Group([m], if x.ctl.current.None? then 0 else 1)], n) &&
            Heard(g, x.ctl, y.ctl, m).groups == g.groups + [Group([m], if x.ctl.current.None? then 0 else 1)]
  {
    hide Apart, Spec.Note, Spec.NewIncident, Observations, Spec.Weight, C.IncidentOk, C.ReadyOk, AllTold;
    var c, waited := x.ctl, if x.ctl.current.None? then 0 else 1;
    FiresIsTriggers(c, m);
    OpenedTold(c.config, m, waited);
    hide Told;
    ApartGrows(c.config, g.groups, m, waited);
    GroupedAll(c.config, g.groups);
  }

  /** A metric up to the current deadline. */
  lemma HeardInTime(x: C.Scan, g: Story, m: Metric, last: nat, t: nat, n: nat)
    requires Hears(x, g, m, last, t, n) && Fires(SetOf(x.ctl.sensors), m)
    requires x.ctl.current.Some? && t <= x.ctl.current.value.end
    ensures x.ctl.next.None?
    ensures var y := C.ObserveOne(x, m, last, t);
            Open(y.ctl, Onto(g.groups, m, 0), n) && Heard(g, x.ctl, y.ctl, m).groups == Onto(g.groups, m, 0)
  {
    hide Apart, Spec.Note, Spec.NewIncident, Observations, Spec.Weight, C.IncidentOk, C.ReadyOk, AllTold, Told;
    var c := x.ctl;
    FiresIsTriggers(c, m);
    if x.ctl.next.Some? {
      MidApart(x, last, t);
      assert false;
    }
    JoinedTold(c.config, c.current.value, g.groups[n], m);
    NoteDiffers(c.config, c.current.value, m);
    ApartGrows(c.config, g.groups, m, 0);
  }

  lemma MidApart(x: C.Scan, last: nat, t: nat)
    requires C.Mid(x, last, t) && x.ctl.current.Some? && x.ctl.next.Some?
    ensures x.ctl.current.value.end < x.ctl.next.value.detected <= t
  {
  }

  /** A metric past the current deadline while an incident waits. */
  lemma HeardWaiting(x: C.Scan, g: Story, m: Metric, last: nat, t: nat, n: nat)
    requires Hears(x, g, m, last, t, n) && Fires(SetOf(x.ctl.sensors), m)
    requires x.ctl.current.Some? && x.ctl.next.Some? && t > x.ctl.current.value.end
    ensures x.ctl.next.value.detected <= t
    ensures var y := C.ObserveOne(x, m, last, t);
            Open(y.ctl, Onto(g.groups, m, 1), n) && Heard(g, x.ctl, y.ctl, m).groups == Onto(g.groups, m, 1)
  {
    hide Apart, Spec.Note, Spec.Extend, Observations, Spec.Weight, C.IncidentOk, C.ReadyOk, Told;
    var c := x.ctl;
    FiresIsTriggers(c, m);
    MidApart(x, last, t);
    LastHeard(g.groups, t);
    StretchedTold(c.config, c.next.value, g.groups[n + 1], m);
    NoteDiffers(c.config, c.next.value, m);
    ApartGrows(c.config, g.groups, m, 1);
  }

  lemma GroupedAll(c: Spec.Config, gs: seq<Group>)
    requires Apart(c, gs)
    ensures forall i :: 0 <= i < |gs| ==> Grouped(gs[i])
  {
  }

  // ----- the poll that completes a window -----

  /** `ready` is the first poll at or after the deadline, or unset before it. */
  predicate FirstPast(ready: nat, end: nat, polls: seq<nat>) {
    if ready == 0 then forall p :: p in polls ==> p < end
    else ready in polls && end <= ready && forall p :: p in polls && end <= p ==> ready <= p
  }

  predicate Ready(c: Spec.Control, polls: seq<nat>) {
    (c.current.Some? ==> FirstPast(c.currentReady, c.current.value.end, polls)) &&
    (c.next.Some? ==> FirstPast(c.nextReady, c.next.value.end, polls))
  }

  predicate PollsBy(polls: seq<nat>, last: nat) {
    forall p :: p in polls ==> p <= last
  }

  lemma HeardReady(x: C.Scan, m: Metric, last: nat, t: nat, polls: seq<nat>)
    requires C.Mid(x, last, t) && Ready(x.ctl, polls) && PollsBy(polls, last) && m.start == last && m.end == t
    ensures x.ctl.next.Some? ==> x.ctl.next.value.detected <= t
    ensures Ready(C.ObserveOne(x, m, last, t).ctl, polls)
  {
    hide Spec.FamilyIndex, Spec.Weight, Spec.Threshold, Spec.Reason, C.IncidentOk;
    C.MidDetected(x, last, t);
  }

  lemma CollectedReady(c: Spec.Control, polls: seq<nat>, last: nat, t: nat)
    requires Ready(c, polls) && PollsBy(polls, last) && last <= t
    requires c.current.Some? ==> c.current.value.end > 0
    requires c.next.Some? ==> c.next.value.end > 0
    ensures Ready(Spec.CollectedThrough(c, t), polls + [t])
  {
  }

  /** All of it, inside a poll at `t` that follows a poll at `last`, behind `n` begun incidents. */
  predicate Polling(x: C.Scan, g: Story, last: nat, t: nat, n: nat, begun: seq<C.Window>) {
    C.Mid(x, last, t) && C.Counted(x.ctl, begun) && Open(x.ctl, g.groups, n) && AllTold(x.ctl, g, t) &&
    Over(x.ctl.config, g.groups, n, last) && Ready(x.ctl, g.polls) && PollsBy(g.polls, last)
  }

  /** The first `n` groups and the polls stay as they were. */
  predicate Kept(g: Story, h: Story, n: nat) {
    n <= |g.groups| && n <= |h.groups| && h.groups[..n] == g.groups[..n] && h.polls == g.polls
  }

  /** Where a metric that fires goes. */
  lemma HeardOpen(x: C.Scan, g: Story, m: Metric, last: nat, t: nat, n: nat)
    requires Hears(x, g, m, last, t, n) && Fires(SetOf(x.ctl.sensors), m)
    ensures x.ctl.next.Some? ==> x.ctl.next.value.detected <= t
    ensures var y := C.ObserveOne(x, m, last, t);
            var h := Heard(g, x.ctl, y.ctl, m);
            Open(y.ctl, h.groups, n) && Grows(g.groups, h.groups, n, m)
  {
    hide Hears, Open, Spec.Observe, Heard;
    HearsMid(x, g, m, last, t, n);
    if x.ctl.current.None? || (x.ctl.next.None? && t > x.ctl.current.value.end) {
      FlatGrows(g.groups, m, if x.ctl.current.None? then 0 else 1);
      HeardFirst(x, g, m, last, t, n);
    } else if t <= x.ctl.current.value.end {
      FlatGrows(g.groups, m, 0);
      HeardInTime(x, g, m, last, t, n);
    } else {
      FlatGrows(g.groups, m, 1);
      HeardWaiting(x, g, m, last, t, n);
    }
  }

  /** The metric comes last, and not in the first `n` groups. */
  predicate Grows(gs: seq<Group>, hs: seq<Group>, n: nat, m: Metric) {
    Flat(hs) == Flat(gs) + [m] && n <= |gs| && n <= |hs| && hs[..n] == gs[..n]
  }

  lemma HearsMid(x: C.Scan, g: Story, m: Metric, last: nat, t: nat, n: nat)
    requires Hears(x, g, m, last, t, n)
    ensures x.ctl.next.Some? ==> x.ctl.next.value.detected <= t
    ensures x.ctl.current.None? ==> x.ctl.next.None?
    ensures |g.groups| == n + C.Open(x.ctl.current) + C.Open(x.ctl.next)
  {
    hide Told, Apart;
  }

  /** The controller counts a metric that fires, and no other one. */
  lemma ObserveCounts(x: C.Scan, m: Metric, last: nat, t: nat)
    requires x.ctl.next.Some? ==> x.ctl.next.value.detected <= t
    ensures var c := C.ObserveOne(x, m, last, t).ctl;
            c.detected == x.ctl.detected + (if Fires(SetOf(x.ctl.sensors), m) then Observations(m) else 0) &&
            (!Fires(SetOf(x.ctl.sensors), m) ==> c == x.ctl)
  {
    hide Fires, SetOf, Observations, Spec.Triggers, Spec.Weight, Spec.Note, Spec.Extend, Spec.NewIncident;
    FiresIsTriggers(x.ctl, m);
  }

  lemma HeardTold(x: C.Scan, g: Story, m: Metric, last: nat, t: nat, n: nat)
    requires Hears(x, g, m, last, t, n)
    ensures x.ctl.next.Some? ==> x.ctl.next.value.detected <= t
    ensures var y := C.ObserveOne(x, m, last, t);
            var h := Heard(g, x.ctl, y.ctl, m);
            Open(y.ctl, h.groups, n) && AllTold(y.ctl, h, t) && Over(y.ctl.config, h.groups, n, last) && Kept(g, h, n)
  {
    hide Told, Apart, Open, Observations, C.Mid, C.ObserveOne, Total, Flat, Fires, SetOf;
    HearsMid(x, g, m, last, t, n);
    ConfigKept(x, m, last, t);
    ObserveCounts(x, m, last, t);
    if Fires(SetOf(x.ctl.sensors), m) {
      TotalAppend(g.fired, m, "");
      HeardOpen(x, g, m, last, t, n);
    }
  }

  lemma PollStep(x: C.Scan, g: Story, m: Metric, last: nat, t: nat, n: nat, begun: seq<C.Window>)
    requires Polling(x, g, last, t, n, begun) && m.start == last && m.end == t
    ensures x.ctl.next.Some? ==> x.ctl.next.value.detected <= t
    ensures var y := C.ObserveOne(x, m, last, t);
            Polling(y, Heard(g, x.ctl, y.ctl, m), last, t, n, begun) && Kept(g, Heard(g, x.ctl, y.ctl, m), n) &&
            y.ctl.config == x.ctl.config
  {
    hide C.Mid, C.Counted, Open, AllTold, Ready, C.ObserveOne;
    HeardTold(x, g, m, last, t, n);
    HeardReady(x, m, last, t, g.polls);
    C.ObserveMid(x, m, last, t, begun);
    ConfigKept(x, m, last, t);
  }

  lemma {:induction false} PollOpen(x: C.Scan, g: Story, ms: seq<Metric>, last: nat, t: nat, n: nat,
                                    begun: seq<C.Window>)
    requires Polling(x, g, last, t, n, begun) && forall m :: m in ms ==> m.start == last && m.end == t
    ensures x.ctl.next.Some? ==> x.ctl.next.value.detected <= t
    ensures var y, h := C.ObserveAll(x, ms, last, t), HeardAll(x, g, ms, last, t);
            Polling(y, h, last, t, n, begun) && Kept(g, h, n) && y.ctl.config == x.ctl.config
    decreases |ms|
  {
    C.MidDetected(x, last, t);
    if |ms| > 0 {
      assert ms[0] in ms;
      PollStep(x, g, ms[0], last, t, n, begun);
      var y := C.ObserveOne(x, ms[0], last, t);
      PollOpen(y, Heard(g, x.ctl, y.ctl, ms[0]), ms[1..], last, t, n, begun);
    }
  }

  lemma ConfigKept(x: C.Scan, m: Metric, last: nat, t: nat)
    requires x.ctl.next.Some? ==> x.ctl.next.value.detected <= t
    ensures C.ObserveOne(x, m, last, t).ctl.config == x.ctl.config
  {
  }

  // ----- windows -----

  /** The lookback before the detection, but not past the end of the last published file. A trigger
      interval across that point moves the start back to its own. */
  predicate StartTold(w: C.Window) {
    var a := w.incident;
    var b := if w.savedEnd + a.before <= a.detected then a.detected - a.before else w.savedEnd;
    w.start <= b && (forall t :: t in a.triggers && t.firstStart < b <= t.lastEnd ==> w.start <= t.firstStart) &&
    (w.start < b ==> exists t :: t in a.triggers && t.firstStart == w.start && b <= t.lastEnd)
  }

  /** The window of an incident ends with the first poll at or after the deadline. */
  predicate WindowTold(c: Spec.Config, w: C.Window, g: Group, polls: seq<nat>) {
    var a := w.incident;
    Grouped(g) && a.detected == g.metrics[0].end && a.before == c.before && a.end - a.detected == a.after &&
    TriggersTold(c, a.triggers, g.metrics) &&
    (forall k :: g.waited <= k < |g.metrics| ==> g.metrics[k].end <= Deadline(c, g)) &&
    a.end in polls && Deadline(c, g) <= a.end && (forall p :: p in polls && Deadline(c, g) <= p ==> a.end <= p) &&
    StartTold(w)
  }

  predicate Begun(c: Spec.Config, ws: seq<C.Window>, gs: seq<Group>, polls: seq<nat>) {
    |ws| <= |gs| && forall i :: 0 <= i < |ws| ==> WindowTold(c, ws[i], gs[i], polls)
  }

  predicate Known(c: Spec.Config, s: C.Sys, g: Story) {
    s.ctl.config == c && Open(s.ctl, g.groups, |s.begun|) && AllTold(s.ctl, g, s.last) && Ready(s.ctl, g.polls) &&
    PollsBy(g.polls, s.last) && Begun(c, s.begun, g.groups, g.polls)
  }

  lemma ChosenTold(s: C.Sys, polls: seq<nat>)
    requires C.Inv(s) && C.Enabled(s, C.BeginWrite)
    ensures s.ctl.current.value.detected <= s.ctl.current.value.end
    ensures StartTold(C.Window(Spec.Chosen(s.ctl), Spec.WindowStart(s.ctl), s.prior, s.ctl.lastSavedEnd))
  {
    hide C.IncidentOk, C.Counted, C.Good;
    C.BeginMid(s);
  }

  lemma BegunOver(c: Spec.Config, ws: seq<C.Window>, gs: seq<Group>, polls: seq<nat>, last: nat)
    requires Begun(c, ws, gs, polls) && PollsBy(polls, last)
    ensures Over(c, gs, |ws|, last)
  {
    forall i | 0 <= i < |ws| ensures Grouped(gs[i]) && Deadline(c, gs[i]) <= last {
      assert WindowTold(c, ws[i], gs[i], polls);
    }
  }

  lemma BegunKept(c: Spec.Config, ws: seq<C.Window>, gs: seq<Group>, hs: seq<Group>, polls: seq<nat>, t: nat)
    requires Begun(c, ws, gs, polls) && |ws| <= |hs| && hs[..|ws|] == gs[..|ws|] && PollsBy(polls, t)
    ensures Begun(c, ws, hs, polls + [t])
  {
    hide TriggersTold, StartTold;
    forall i | 0 <= i < |ws| ensures WindowTold(c, ws[i], hs[i], polls + [t]) {
      assert WindowTold(c, ws[i], gs[i], polls) && hs[i] == hs[..|ws|][i] == gs[..|ws|][i] == gs[i];
    }
  }

  lemma FollowPoll(c: Spec.Config, s: C.Sys, g: Story, t: nat, ms: seq<Metric>)
    requires C.Inv(s) && C.Enabled(s, C.Poll(t, ms)) && Known(c, s, g)
    ensures Known(c, C.Apply(s, C.Poll(t, ms)), Follow(s, g, C.Poll(t, ms)))
  {
    hide Open, AllTold, C.Counted, Begun, C.IncidentOk, C.FilesBound, C.Files, Over, C.Mid, Ready;
    var x, n := C.Scan(s.ctl, s.prior, s.nextPrior), |s.begun|;
    InPoll(s, g, t);
    PollOpen(x, g, ms, s.last, t, n, s.begun);
    var y, h := C.ObserveAll(x, ms, s.last, t), HeardAll(x, g, ms, s.last, t);
    DeadlinesPositive(y, s.last, t);
    CollectedReady(y.ctl, g.polls, s.last, t);
    CollectedOpen(y.ctl, h, n, t);
    BegunKept(c, s.begun, g.groups, h.groups, g.polls, t);
  }

  lemma InPoll(s: C.Sys, g: Story, t: nat)
    requires C.Inv(s) && s.last <= t && Known(s.ctl.config, s, g)
    ensures Polling(C.Scan(s.ctl, s.prior, s.nextPrior), g, s.last, t, |s.begun|, s.begun)
  {
    hide Open, C.Counted, Begun, Over, C.FilesBound, Ready;
    BegunOver(s.ctl.config, s.begun, g.groups, g.polls, s.last);
  }

  lemma DeadlinesPositive(y: C.Scan, last: nat, t: nat)
    requires C.Mid(y, last, t)
    ensures y.ctl.current.Some? ==> y.ctl.current.value.end > 0
    ensures y.ctl.next.Some? ==> y.ctl.next.value.end > 0
  {
  }

  lemma CollectedOpen(c: Spec.Control, h: Story, n: nat, t: nat)
    requires Open(c, h.groups, n) && AllTold(c, h, t)
    ensures var d, k := Spec.CollectedThrough(c, t), h.(polls := h.polls + [t]);
            d.config == c.config && Open(d, k.groups, n) && AllTold(d, k, t)
  {
    hide Told, Apart, Flat, Total;
  }

  lemma FollowBegin(c: Spec.Config, s: C.Sys, g: Story)
    requires C.Inv(s) && C.Enabled(s, C.BeginWrite) && Known(c, s, g)
    ensures Known(c, C.Apply(s, C.BeginWrite), g)
  {
    hide C.Counted, C.Good, Spec.WindowStart, StartTold, TriggersTold, Apart, C.IncidentOk, C.FilesBound;
    ChosenTold(s, g.polls);
    var n := |s.begun|;
    var w := C.Window(Spec.Chosen(s.ctl), Spec.WindowStart(s.ctl), s.prior, s.ctl.lastSavedEnd);
    assert WindowTold(c, w, g.groups[n], g.polls);
  }

  lemma FollowKnown(c: Spec.Config, s: C.Sys, g: Story, a: C.Action)
    requires C.Inv(s) && C.Enabled(s, a) && Known(c, s, g)
    ensures Known(c, C.Apply(s, a), Follow(s, g, a))
  {
    hide Told, Apart, Flat, Total, Begun, C.Mid, C.Counted;
    match a
    case Poll(t, ms) => FollowPoll(c, s, g, t, ms);
    case BeginWrite => FollowBegin(c, s, g);
    case _ =>
  }

  // ----- whole runs -----

  function Run(s: C.Sys, g: Story, acts: seq<C.Action>): Story
    requires C.Inv(s) && C.Possible(s, acts)
    decreases |acts|
  {
    if |acts| == 0 then g
    else
      C.ApplyHolds(s, acts[0]);
      Run(C.Apply(s, acts[0]), Follow(s, g, acts[0]), acts[1..])
  }

  lemma {:induction false} RunKnown(c: Spec.Config, s: C.Sys, g: Story, acts: seq<C.Action>)
    requires C.Inv(s) && C.Possible(s, acts) && Known(c, s, g)
    ensures Known(c, C.After(s, acts), Run(s, g, acts))
    decreases |acts|
  {
    hide Known, C.Inv, C.Enabled, C.Apply, Follow;
    if |acts| > 0 {
      C.ApplyHolds(s, acts[0]);
      FollowKnown(c, s, g, acts[0]);
      RunKnown(c, C.Apply(s, acts[0]), Follow(s, g, acts[0]), acts[1..]);
    }
  }

  lemma SensorsKept(x: C.Scan, m: Metric, last: nat, t: nat)
    requires x.ctl.next.Some? ==> x.ctl.next.value.detected <= t
    ensures C.ObserveOne(x, m, last, t).ctl.sensors == x.ctl.sensors
  {
  }

  lemma HeardOne(g: Story, before: Spec.Control, after: Spec.Control, m: Metric)
    ensures var h := Heard(g, before, after, m);
            h.fired == g.fired + FiredOne(SetOf(before.sensors), m) && h.polls == g.polls
  {
    hide Fires, SetOf, Onto;
  }

  lemma Associates<T>(a: seq<T>, b: seq<T>, c: seq<T>)
    ensures a + b + c == a + (b + c)
  {
  }

  lemma {:induction false} HeardFired(x: C.Scan, g: Story, ms: seq<Metric>, last: nat, t: nat)
    requires x.ctl.next.Some? ==> x.ctl.next.value.detected <= t
    ensures var h := HeardAll(x, g, ms, last, t);
            h.fired == g.fired + Firing(SetOf(x.ctl.sensors), ms) && h.polls == g.polls
    decreases |ms|
  {
    hide Fires, FiredOne, SetOf, C.ObserveOne, Heard;
    if |ms| > 0 {
      C.DetectedInTime(x, ms[0], last, t);
      SensorsKept(x, ms[0], last, t);
      var y := C.ObserveOne(x, ms[0], last, t);
      HeardOne(g, x.ctl, y.ctl, ms[0]);
      HeardFired(y, Heard(g, x.ctl, y.ctl, ms[0]), ms[1..], last, t);
      var sensors := SetOf(x.ctl.sensors);
      Associates(g.fired, FiredOne(sensors, ms[0]), Firing(sensors, ms[1..]));
    }
  }

  /** The sensors in use are those of the start less the lost ones. */
  lemma ApplySensors(s: C.Sys, a: C.Action)
    requires C.Inv(s) && C.Enabled(s, a)
    ensures SetOf(C.Apply(s, a).ctl.sensors) == Left(SetOf(s.ctl.sensors), a)
  {
    hide C.Inv, C.Enabled;
    if a.Poll? {
      C.MidDetectedNow(s, a.t, a.metrics);
      C.ObserveKeepsSensors(C.Scan(s.ctl, s.prior, s.nextPrior), a.metrics, s.last, a.t);
    }
  }

  lemma FollowFired(s: C.Sys, g: Story, a: C.Action)
    requires C.Inv(s) && C.Enabled(s, a)
    ensures Follow(s, g, a).fired == g.fired + FiredBy(SetOf(s.ctl.sensors), a)
    ensures Follow(s, g, a).polls == g.polls + PollBy(a)
  {
    hide C.Inv, C.Enabled, SetOf, HeardAll, Firing;
    if a.Poll? {
      C.MidDetectedNow(s, a.t, a.metrics);
      HeardFired(C.Scan(s.ctl, s.prior, s.nextPrior), g, a.metrics, s.last, a.t);
    }
  }

  lemma {:induction false} RunFired(s: C.Sys, g: Story, acts: seq<C.Action>)
    requires C.Inv(s) && C.Possible(s, acts)
    ensures Run(s, g, acts).fired == g.fired + Fired(SetOf(s.ctl.sensors), acts)
    ensures Run(s, g, acts).polls == g.polls + Polls(acts)
    decreases |acts|
  {
    hide C.Inv, C.Enabled, C.Apply, SetOf, Follow, FiredBy, PollBy, Left;
    if |acts| > 0 {
      var a, r := acts[0], acts[1..];
      C.ApplyHolds(s, a);
      ApplySensors(s, a);
      FollowFired(s, g, a);
      var sensors := SetOf(s.ctl.sensors);
      RunFired(C.Apply(s, a), Follow(s, g, a), r);
      Associates(g.fired, FiredBy(sensors, a), Fired(Left(sensors, a), r));
      Associates(g.polls, PollBy(a), Polls(r));
    }
  }

  /** The groups of a run from the start. */
  function Groups(c: Spec.Config, sensors: seq<string>, now: nat, acts: seq<C.Action>): seq<Group>
    requires C.Sound(c) && C.Possible(C.Start(c, sensors, now), acts)
  {
    Run(C.Start(c, sensors, now), Story([], [], []), acts).groups
  }

  lemma StartKnown(c: Spec.Config, sensors: seq<string>, now: nat)
    requires C.Sound(c)
    ensures var s := C.Start(c, sensors, now);
            s.ctl.sensors == sensors && Known(c, s, Story([], [], []))
  {
    hide C.Inv, Told, WindowTold;
  }

  lemma RunTold(c: Spec.Config, sensors: seq<string>, now: nat, acts: seq<C.Action>)
    requires C.Sound(c) && C.Possible(C.Start(c, sensors, now), acts)
    ensures var r, gs := C.After(C.Start(c, sensors, now), acts), Groups(c, sensors, now, acts);
            Known(c, r, Story(gs, Fired(SetOf(sensors), acts), Polls(acts)))
  {
    hide C.Inv, C.Possible, Run, C.After, Known, C.Start, Fired, SetOf;
    var s, g := C.Start(c, sensors, now), Story([], [], []);
    StartKnown(c, sensors, now);
    RunKnown(c, s, g, acts);
    RunFired(s, g, acts);
    assert g.fired + Fired(SetOf(sensors), acts) == Fired(SetOf(sensors), acts);
    assert g.polls + Polls(acts) == Polls(acts);
  }

  /** Over whole runs: the detections are the observations of the metrics that fire while their
      sensor is in use. These metrics, in order, are the groups of the incidents, each of which opens
      past the deadline of the one before; an open incident tells of its group. */
  lemma DetectionsTold(c: Spec.Config, sensors: seq<string>, now: nat, acts: seq<C.Action>)
    requires C.Sound(c) && C.Possible(C.Start(c, sensors, now), acts)
    ensures var r, gs := C.After(C.Start(c, sensors, now), acts), Groups(c, sensors, now, acts);
            var n := |r.begun|;
            r.ctl.detected == Total(Fired(SetOf(sensors), acts)) && Flat(gs) == Fired(SetOf(sensors), acts) &&
            |gs| == n + C.Open(r.ctl.current) + C.Open(r.ctl.next) && Apart(c, gs) &&
            (r.ctl.next.Some? ==> r.ctl.current.Some? && Told(c, r.ctl.next.value, gs[n + 1])) &&
            (r.ctl.current.Some? ==> Told(c, r.ctl.current.value, gs[n]))
  {
    hide C.Inv, C.Possible, Run, C.After, Fired, Told, Apart;
    RunTold(c, sensors, now, acts);
  }

  /** Over whole runs: every window handed over tells of its group, reaches back `before` its
      detection to no further than the published end, and ends with the first poll at or after its
      deadline. */
  lemma WindowsTold(c: Spec.Config, sensors: seq<string>, now: nat, acts: seq<C.Action>)
    requires C.Sound(c) && C.Possible(C.Start(c, sensors, now), acts)
    ensures var r, gs := C.After(C.Start(c, sensors, now), acts), Groups(c, sensors, now, acts);
            |r.begun| <= |gs| && forall i :: 0 <= i < |r.begun| ==> WindowTold(c, r.begun[i], gs[i], Polls(acts))
  {
    hide C.Inv, C.Possible, Run, C.After, Fired, WindowTold;
    RunTold(c, sensors, now, acts);
  }
}
