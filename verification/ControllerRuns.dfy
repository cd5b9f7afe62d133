/** Incident windows over whole runs of polls, writer hand-overs and completions. */
module ControllerRuns {
  import opened Telemetry
  import opened CaptureModel
  import opened ControllerSpec

  /** A window handed to the writer, with the poll before its detection and the end of the
      last published file at that moment. */
  datatype Window = Window(incident: Incident, start: nat, prior: nat, savedEnd: nat)

  /** The controller, the poll before each open incident's detection, and what was begun. */
  datatype Sys = Sys(ctl: Control, last: nat, prior: nat, nextPrior: nat, begun: seq<Window>)

  datatype Action =
    | Poll(t: nat, metrics: seq<Metric>)
    | BeginWrite
    | FinishWrite(published: bool, failed: bool)
    | SensorLost(family: string)

  predicate Sound(c: Config) {
    c.before > 0 && c.blockCritical > 0 && c.schedulerCritical > 0
  }

  function Start(c: Config, sensors: seq<string>, now: nat): (s: Sys)
    requires Sound(c)
    ensures Inv(s)
  {
    Sys(ControllerSpec.New(c, sensors), now, 0, 0, [])
  }

  /** Polls observe the interval since the previous poll; a window begins only past its
      deadline and while no file is being written. */
  predicate Enabled(s: Sys, a: Action) {
    match a
    case Poll(t, ms) => t >= s.last && forall m :: m in ms ==> m.start == s.last && m.end == t
    case BeginWrite => s.ctl.current.Some? && !s.ctl.writing && s.last >= s.ctl.current.value.end
    case FinishWrite(_, _) => s.ctl.writing
    case SensorLost(_) => true
  }

  // ----- one poll -----

  datatype Scan = Scan(ctl: Control, prior: nat, nextPrior: nat)

  function ObserveOne(x: Scan, m: Metric, last: nat, t: nat): Scan
    requires x.ctl.next.Some? ==> x.ctl.next.value.detected <= t
  {
    var r := Observe(x.ctl, m, t);
    Scan(r, if x.ctl.current.None? && r.current.Some? then last else x.prior,
         if x.ctl.next.None? && r.next.Some? then last else x.nextPrior)
  }

  lemma DetectedInTime(x: Scan, m: Metric, last: nat, t: nat)
    requires x.ctl.next.Some? ==> x.ctl.next.value.detected <= t
    ensures var r := ObserveOne(x, m, last, t).ctl; r.next.Some? ==> r.next.value.detected <= t
  {
  }

  function ObserveAll(x: Scan, ms: seq<Metric>, last: nat, t: nat): Scan
    requires x.ctl.next.Some? ==> x.ctl.next.value.detected <= t
    decreases |ms|
  {
    if |ms| == 0 then x
    else
      DetectedInTime(x, ms[0], last, t);
      ObserveAll(ObserveOne(x, ms[0], last, t), ms[1..], last, t)
  }

  // ----- the invariant -----

  predicate TriggerOk(c: Config, t: Trigger, a: Incident, prior: nat) {
    t.family in [BLOCK_IO, SCHEDULER, OOM] && t.reason == Reason(t.family) && t.threshold == Threshold(c, t.family) &&
    t.count > 0 && prior <= t.firstStart < t.lastEnd && a.detected <= t.lastEnd <= a.end
  }

  /** An open incident: it was detected at the poll after `prior`, by an interval starting there. */
  predicate IncidentOk(c: Config, a: Incident, prior: nat, latest: nat) {
    prior < a.detected <= latest && a.detected <= a.end && a.after == a.end - a.detected && a.before == c.before &&
    |a.triggers| > 0 && a.triggers[0].firstStart == prior && DistinctFamilies(a.triggers) &&
    forall t :: t in a.triggers ==> TriggerOk(c, t, a, prior) && t.lastEnd <= latest
  }

  /** `ready` is unset before the deadline and the first poll at or after it from then on. */
  predicate ReadyOk(ready: nat, a: Incident, latest: nat) {
    if ready == 0 then latest < a.end else a.end <= ready <= latest
  }

  /** A file end is either no later than the poll before the detection, or that very poll. */
  predicate Bounded(fileEnd: nat, a: Incident, prior: nat) {
    fileEnd <= prior || fileEnd == a.detected
  }

  predicate FilesBound(c: Control, a: Incident, prior: nat) {
    Bounded(c.lastSavedEnd, a, prior) && (c.writing ==> Bounded(c.writingEnd, a, prior))
  }

  predicate Files(c: Control, latest: nat) {
    c.lastSavedEnd <= latest && (c.writing ==> c.lastSavedEnd <= c.writingEnd <= latest)
  }

  predicate Empty(c: Control) {
    (c.current.None? ==> c.currentReady == 0 && c.next.None?) && (c.next.None? ==> c.nextReady == 0)
  }

  /** Inside a poll at `t` that follows a poll at `last`. */
  predicate Mid(x: Scan, last: nat, t: nat) {
    var c := x.ctl;
    last <= t && Sound(c.config) && Empty(c) && Files(c, last) &&
    (c.current.Some? ==>
       x.prior <= last && IncidentOk(c.config, c.current.value, x.prior, t) &&
       ReadyOk(c.currentReady, c.current.value, last) &&
       FilesBound(c, c.current.value, x.prior)) &&
    (c.next.Some? ==>
       x.nextPrior <= last && IncidentOk(c.config, c.next.value, x.nextPrior, t) &&
       ReadyOk(c.nextReady, c.next.value, last) &&
       FilesBound(c, c.next.value, x.nextPrior) && c.current.value.end < c.next.value.detected &&
       if c.currentReady == 0 then c.next.value.detected == t
       else Bounded(c.currentReady, c.next.value, x.nextPrior))
  }

  function CountOf(ts: seq<Trigger>): nat {
    if |ts| == 0 then 0 else ts[0].count + CountOf(ts[1..])
  }

  function Open(a: Option<Incident>): nat {
    if a.Some? then 1 else 0
  }

  function Seen(a: Option<Incident>): nat {
    if a.Some? then CountOf(a.value.triggers) else 0
  }

  function BegunCount(ws: seq<Window>): nat {
    if |ws| == 0 then 0 else BegunCount(ws[..|ws| - 1]) + CountOf(ws[|ws| - 1].incident.triggers)
  }

  /** Every detection is in exactly one incident, and all but the first of each were coalesced. */
  predicate Counted(c: Control, begun: seq<Window>) {
    c.detected == BegunCount(begun) + Seen(c.current) + Seen(c.next) &&
    c.detected - c.coalesced == |begun| + Open(c.current) + Open(c.next)
  }

  predicate Contains(w: Window) {
    forall t :: t in w.incident.triggers ==> w.start <= t.firstStart && t.lastEnd <= w.incident.end
  }

  /** A window starts at or after the last published end, unless its incident was detected at
      that very poll; then the overlap is that one poll interval. */
  predicate OverlapsOnePoll(w: Window) {
    w.start >= w.savedEnd ||
    (w.savedEnd == w.incident.detected && w.start == w.prior < w.savedEnd <= w.incident.end)
  }

  predicate Good(w: Window) {
    ValidIncident(w.incident, w.incident.end) && Contains(w) && OverlapsOnePoll(w) &&
    w.savedEnd <= w.incident.end
  }

  predicate Inv(s: Sys) {
    Mid(Scan(s.ctl, s.prior, s.nextPrior), s.last, s.last) && Counted(s.ctl, s.begun) &&
    forall w :: w in s.begun ==> Good(w)
  }

  lemma MidDetected(x: Scan, last: nat, t: nat)
    requires Mid(x, last, t)
    ensures x.ctl.next.Some? ==> x.ctl.next.value.detected <= t
  {
  }

  function Apply(s: Sys, a: Action): Sys
    requires Inv(s) && Enabled(s, a)
  {
    match a
    case Poll(t, ms) =>
      var x := ObserveAll(Scan(s.ctl, s.prior, s.nextPrior), ms, s.last, t);
      s.(ctl := CollectedThrough(x.ctl, t), last := t, prior := x.prior, nextPrior := x.nextPrior)
    case BeginWrite =>
      s.(ctl := Begin(s.ctl), prior := s.nextPrior,
         begun := s.begun + [Window(Chosen(s.ctl), WindowStart(s.ctl), s.prior, s.ctl.lastSavedEnd)])
    case FinishWrite(published, failed) => s.(ctl := Finish(s.ctl, published, failed))
    case SensorLost(family) => s.(ctl := Unavailable(s.ctl, family))
  }

  // ----- noting a trigger -----

  lemma {:induction false} CountOfUpdate(ts: seq<Trigger>, i: nat, t: Trigger)
    requires i < |ts|
    ensures CountOf(ts[i := t]) == CountOf(ts) + t.count - ts[i].count
  {
    if i > 0 {
      assert ts[i := t][1..] == ts[1..][i - 1 := t];
      CountOfUpdate(ts[1..], i - 1, t);
    } else {
      assert ts[i := t][1..] == ts[1..];
    }
  }

  lemma {:induction false} CountOfAppend(ts: seq<Trigger>, t: Trigger)
    ensures CountOf(ts + [t]) == CountOf(ts) + t.count
  {
    if |ts| > 0 {
      assert (ts + [t])[1..] == ts[1..] + [t];
      CountOfAppend(ts[1..], t);
    }
  }

  lemma NoteCounts(c: Config, a: Incident, m: Metric)
    ensures CountOf(Note(c, a, m).triggers) == CountOf(a.triggers) + Weight(m)
  {
    var i := FamilyIndex(a.triggers, m.family);
    if i < |a.triggers| {
      var x := a.triggers[i];
      CountOfUpdate(a.triggers, i, x.(count := x.count + Weight(m), lastEnd := m.end));
    } else {
      CountOfAppend(a.triggers, Trigger(m.family, Reason(m.family), Weight(m), Threshold(c, m.family), m.start, m.end));
    }
  }

  /** Noting a trigger seen at `t` within the incident's window keeps it well formed. */
  lemma NoteOk(c: Config, a: Incident, m: Metric, prior: nat, t: nat)
    requires prior < a.detected <= t <= a.end && a.after == a.end - a.detected && a.before == c.before
    requires DistinctFamilies(a.triggers)
    requires forall x :: x in a.triggers ==> TriggerOk(c, x, a, prior) && x.lastEnd <= t
    requires |a.triggers| > 0 ==> a.triggers[0].firstStart == prior
    requires |a.triggers| == 0 ==> m.start == prior
    requires prior <= m.start < m.end == t && Weight(m) > 0
    ensures IncidentOk(c, Note(c, a, m), prior, t)
  {
    var r, i := Note(c, a, m), FamilyIndex(a.triggers, m.family);
    forall x | x in r.triggers
      ensures TriggerOk(c, x, r, prior) && x.lastEnd <= t
    {
      var k :| 0 <= k < |r.triggers| && r.triggers[k] == x;
      if k < |a.triggers| {
        assert a.triggers[k] in a.triggers;
      }
    }
    assert DistinctFamilies(r.triggers) by {
      forall j, k | 0 <= j < k < |r.triggers|
        ensures r.triggers[j].family != r.triggers[k].family
      {
        assert k < |a.triggers| ==> a.triggers[j].family != a.triggers[k].family;
      }
    }
  }

  /** Stretching the waiting window keeps it well formed apart from its readiness. */
  lemma ExtendOk(c: Config, a: Incident, prior: nat, t: nat)
    requires IncidentOk(c, a, prior, t)
    ensures var r := Extend(c, a, t);
            IncidentOk(c, r, prior, t) && t <= r.end && a.end <= r.end && r.detected == a.detected &&
            r.triggers == a.triggers
  {
    var r := Extend(c, a, t);
    assert forall x :: x in r.triggers ==> TriggerOk(c, x, a, prior);
  }

  lemma ObserveMid(x: Scan, m: Metric, last: nat, t: nat, begun: seq<Window>)
    requires Mid(x, last, t) && m.start == last && m.end == t && Counted(x.ctl, begun)
    ensures x.ctl.next.Some? ==> x.ctl.next.value.detected <= t
    ensures var r := ObserveOne(x, m, last, t); Mid(r, last, t) && Counted(r.ctl, begun)
  {
    var c := x.ctl;
    if Triggers(c, m) {
      if c.current.None? {
        NoteOk(c.config, NewIncident(c.config, t), m, last, t);
        NoteCounts(c.config, NewIncident(c.config, t), m);
      } else if t <= c.current.value.end {
        NoteOk(c.config, c.current.value, m, x.prior, t);
        NoteCounts(c.config, c.current.value, m);
      } else if c.next.None? {
        NoteOk(c.config, NewIncident(c.config, t), m, last, t);
        NoteCounts(c.config, NewIncident(c.config, t), m);
      } else {
        var a := Extend(c.config, c.next.value, t);
        ExtendOk(c.config, c.next.value, x.nextPrior, t);
        NoteOk(c.config, a, m, x.nextPrior, t);
        NoteCounts(c.config, a, m);
      }
    }
  }

  lemma {:induction false} ObserveAllMid(x: Scan, ms: seq<Metric>, last: nat, t: nat, begun: seq<Window>)
    requires Mid(x, last, t) && Counted(x.ctl, begun)
    requires forall m :: m in ms ==> m.start == last && m.end == t
    ensures x.ctl.next.Some? ==> x.ctl.next.value.detected <= t
    ensures var r := ObserveAll(x, ms, last, t);
            Mid(r, last, t) && Counted(r.ctl, begun) && r.ctl.lastSavedEnd == x.ctl.lastSavedEnd
    decreases |ms|
  {
    MidDetected(x, last, t);
    if |ms| > 0 {
      assert ms[0] in ms;
      ObserveMid(x, ms[0], last, t, begun);
      ObserveAllMid(ObserveOne(x, ms[0], last, t), ms[1..], last, t, begun);
    }
  }

  /** After the poll is collected, readiness is up to date. */
  lemma CollectMid(x: Scan, last: nat, t: nat)
    requires Mid(x, last, t)
    ensures Mid(x.(ctl := CollectedThrough(x.ctl, t)), t, t)
  {
  }

  lemma PollHolds(s: Sys, t: nat, ms: seq<Metric>)
    requires Inv(s) && Enabled(s, Poll(t, ms))
    ensures var r := Apply(s, Poll(t, ms)); Inv(r) && r.ctl.lastSavedEnd == s.ctl.lastSavedEnd
  {
    var x := Scan(s.ctl, s.prior, s.nextPrior);
    assert Mid(x, s.last, t);
    ObserveAllMid(x, ms, s.last, t, s.begun);
    CollectMid(ObserveAll(x, ms, s.last, t), s.last, t);
  }

  // ----- handing a window over -----

  lemma AtMostThree(ts: seq<Trigger>)
    requires DistinctFamilies(ts) && forall t :: t in ts ==> t.family in [BLOCK_IO, SCHEDULER, OOM]
    ensures |ts| <= 3
  {
    var fs := seq(|ts|, i requires 0 <= i < |ts| => ts[i].family);
    DistinctWithin(fs, {BLOCK_IO, SCHEDULER, OOM});
  }

  /** The incident handed over is valid, its window contains every trigger interval, and it
      overlaps the last published file by at most the one poll interval that detected it. */
  lemma ChosenGood(s: Sys)
    requires Inv(s) && Enabled(s, BeginWrite)
    ensures Good(Window(Chosen(s.ctl), WindowStart(s.ctl), s.prior, s.ctl.lastSavedEnd))
    ensures s.ctl.lastSavedEnd <= Chosen(s.ctl).end == s.ctl.currentReady <= s.last
  {
    var c := s.ctl;
    var a, v, w := c.current.value, Chosen(c), WindowStart(c);
    var boundary := Lookback(a, c.lastSavedEnd);
    AtMostThree(a.triggers);
    forall t | t in v.triggers
      ensures ValidTrigger(t, v.end) && w <= t.firstStart
    {
      assert TriggerOk(c.config, t, a, s.prior);
    }
    assert boundary <= a.detected;
    if w < c.lastSavedEnd {
      var t :| t in a.triggers && t.firstStart == w < boundary <= t.lastEnd;
      assert TriggerOk(c.config, t, a, s.prior);
      assert a.triggers[0] in a.triggers;
      assert w == s.prior;
    }
  }

  lemma BeginHolds(s: Sys)
    requires Inv(s) && Enabled(s, BeginWrite)
    ensures var r := Apply(s, BeginWrite); Inv(r) && r.ctl.lastSavedEnd == s.ctl.lastSavedEnd
  {
    ChosenGood(s);
    BeginMid(s);
    BeginCounted(s);
    hide Mid, Counted, Good, Begin, Chosen, WindowStart;
    var r := Apply(s, BeginWrite);
    assert forall w :: w in r.begun ==> w in s.begun || w == r.begun[|r.begun| - 1];
  }

  lemma BeginMid(s: Sys)
    requires Inv(s) && Enabled(s, BeginWrite)
    ensures s.ctl.current.value.detected <= s.ctl.current.value.end
    ensures Mid(Scan(Begin(s.ctl), s.nextPrior, s.nextPrior), s.last, s.last)
    ensures Begin(s.ctl).lastSavedEnd == s.ctl.lastSavedEnd
  {
    hide Counted, Good, WindowStart;
  }

  lemma BeginCounted(s: Sys)
    requires Inv(s) && Enabled(s, BeginWrite)
    ensures s.ctl.current.value.detected <= s.ctl.current.value.end
    ensures Counted(Begin(s.ctl), s.begun + [Window(Chosen(s.ctl), WindowStart(s.ctl), s.prior, s.ctl.lastSavedEnd)])
  {
    hide Good, WindowStart, Sound, Files, FilesBound, ReadyOk, Bounded;
    var w := Window(Chosen(s.ctl), WindowStart(s.ctl), s.prior, s.ctl.lastSavedEnd);
    assert (s.begun + [w])[..|s.begun|] == s.begun;
  }

  lemma FinishHolds(s: Sys, published: bool, failed: bool)
    requires Inv(s) && Enabled(s, FinishWrite(published, failed))
    ensures var r := Apply(s, FinishWrite(published, failed));
            Inv(r) && r.ctl.lastSavedEnd >= s.ctl.lastSavedEnd &&
            (!published ==> r.ctl.lastSavedEnd == s.ctl.lastSavedEnd) &&
            (published ==> r.ctl.lastSavedEnd == s.ctl.writingEnd)
  {
  }

  /** Every action keeps the invariant; the published boundary never goes back, and only a
      publication moves it. */
  lemma ApplyHolds(s: Sys, a: Action)
    requires Inv(s) && Enabled(s, a)
    ensures Inv(Apply(s, a)) && Apply(s, a).ctl.lastSavedEnd >= s.ctl.lastSavedEnd
    ensures !(a.FinishWrite? && a.published) ==> Apply(s, a).ctl.lastSavedEnd == s.ctl.lastSavedEnd
  {
    match a
    case Poll(t, ms) => PollHolds(s, t, ms);
    case BeginWrite => BeginHolds(s);
    case FinishWrite(published, failed) => FinishHolds(s, published, failed);
    case SensorLost(_) =>
  }

  // ----- runs -----

  predicate Possible(s: Sys, acts: seq<Action>)
    requires Inv(s)
    decreases |acts|
  {
    |acts| == 0 ||
    (Enabled(s, acts[0]) &&
     (ApplyHolds(s, acts[0]); Possible(Apply(s, acts[0]), acts[1..])))
  }

  function After(s: Sys, acts: seq<Action>): (r: Sys)
    requires Inv(s) && Possible(s, acts)
    ensures Inv(r)
    decreases |acts|
  {
    if |acts| == 0 then s
    else
      ApplyHolds(s, acts[0]);
      After(Apply(s, acts[0]), acts[1..])
  }

  /** Over whole runs from a sound configuration: every window handed to the writer is valid,
      wholly contains each of its triggers' intervals and repeats at most one poll interval of
      published history. */
  lemma WindowsOverRuns(c: Config, sensors: seq<string>, now: nat, acts: seq<Action>)
    requires Sound(c) && Possible(Start(c, sensors, now), acts)
    ensures forall w :: w in After(Start(c, sensors, now), acts).begun ==>
              ValidIncident(w.incident, w.incident.end) && Contains(w) && OverlapsOnePoll(w)
  {
    var r := After(Start(c, sensors, now), acts);
    assert forall w :: w in r.begun ==> Good(w);
  }

  /** Over whole runs: detections equal the trigger counts of all begun and open incidents,
      uncoalesced detections count the incidents opened, a waiting incident implies a current
      one, and no incident has two triggers of one family. */
  lemma TriggersConserved(c: Config, sensors: seq<string>, now: nat, acts: seq<Action>)
    requires Sound(c) && Possible(Start(c, sensors, now), acts)
    ensures var r := After(Start(c, sensors, now), acts);
            var x := r.ctl;
            x.detected == BegunCount(r.begun) + Seen(x.current) + Seen(x.next) &&
            x.detected - x.coalesced == |r.begun| + Open(x.current) + Open(x.next) &&
            (x.next.Some? ==> x.current.Some?) &&
            (x.current.Some? ==> DistinctFamilies(x.current.value.triggers)) &&
            (x.next.Some? ==> DistinctFamilies(x.next.value.triggers)) &&
            forall w :: w in r.begun ==> DistinctFamilies(w.incident.triggers)
  {
    var r := After(Start(c, sensors, now), acts);
    assert Inv(r);
  }

  /** The published boundary never goes back along a run. */
  lemma {:induction false} BoundaryMonotone(s: Sys, acts: seq<Action>)
    requires Inv(s) && Possible(s, acts)
    ensures s.ctl.lastSavedEnd <= After(s, acts).ctl.lastSavedEnd
    decreases |acts|
  {
    if |acts| > 0 {
      ApplyHolds(s, acts[0]);
      BoundaryMonotone(Apply(s, acts[0]), acts[1..]);
    }
  }

  /** A run whose publications all fail leaves the boundary where it was. */
  lemma {:induction false} FailuresNeverMoveTheBoundary(s: Sys, acts: seq<Action>)
    requires Inv(s) && Possible(s, acts)
    requires forall a :: a in acts && a.FinishWrite? ==> !a.published
    ensures After(s, acts).ctl.lastSavedEnd == s.ctl.lastSavedEnd
    decreases |acts|
  {
    if |acts| > 0 {
      assert acts[0] in acts;
      ApplyHolds(s, acts[0]);
      FailuresNeverMoveTheBoundary(Apply(s, acts[0]), acts[1..]);
    }
  }

  lemma {:induction false} ObserveKeepsSensors(x: Scan, ms: seq<Metric>, last: nat, t: nat)
    requires x.ctl.next.Some? ==> x.ctl.next.value.detected <= t
    ensures ObserveAll(x, ms, last, t).ctl.sensors == x.ctl.sensors
    decreases |ms|
  {
    if |ms| > 0 {
      DetectedInTime(x, ms[0], last, t);
      ObserveKeepsSensors(ObserveOne(x, ms[0], last, t), ms[1..], last, t);
    }
  }

  /** A sensor once lost triggers nothing for the rest of the run. */
  lemma {:induction false} LostStaysSilent(s: Sys, acts: seq<Action>, family: string, m: Metric)
    requires Inv(s) && Possible(s, acts) && family !in s.ctl.sensors && m.family == family
    ensures !Triggers(After(s, acts).ctl, m)
    decreases |acts|
  {
    hide Inv, Enabled;
    if |acts| > 0 {
      var a := acts[0];
      ApplyHolds(s, a);
      if a.Poll? {
        MidDetectedNow(s, a.t, a.metrics);
        ObserveKeepsSensors(Scan(s.ctl, s.prior, s.nextPrior), a.metrics, s.last, a.t);
      }
      LostStaysSilent(Apply(s, a), acts[1..], family, m);
    }
  }

  lemma MidDetectedNow(s: Sys, t: nat, ms: seq<Metric>)
    requires Inv(s) && Enabled(s, Poll(t, ms))
    ensures s.ctl.next.Some? ==> s.ctl.next.value.detected <= t
  {
    MidDetected(Scan(s.ctl, s.prior, s.nextPrior), s.last, s.last);
  }
}
