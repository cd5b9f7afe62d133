/** The recorder loop under steady polling: what every automatic capture holds of the intervals
    that triggered it. */
module PolledCapture {
  import opened Telemetry
  import opened CaptureModel
  import opened RecorderSpec
  import R = RecorderInvariant
  import S = SnapshotSpec
  import C = ControllerRuns
  import Spec = ControllerSpec
  import opened SnapshotCoverage
  import opened CaptureEvidence
  import opened AutomaticCapture

  /** Time never goes back, and a poll brings at most one metric of each family. */
  predicate Clocked(turns: seq<Turn>, clock: nat)
    decreases |turns|
  {
    |turns| == 0 ||
    match turns[0]
    case Observe(op) => clock <= op.now && Clocked(turns[1..], op.now)
    case Collect(t, ms) =>
      clock <= t && (forall i, j :: 0 <= i < j < |ms| ==> ms[i].family != ms[j].family) && Clocked(turns[1..], t)
    case _ => Clocked(turns[1..], clock)
  }

  predicate PollsEnd(ms: seq<Metric>, limit: nat) {
    forall m :: m in ms ==> m.start <= m.end <= limit
  }

  /** Of the aggregates retained over a trigger's span, the capture holds exactly those that end in
      its window, except a straddler of the oldest segment when there is no rollup. */
  ghost predicate Complete(k: Taken) {
    k.capture.manifest.incident.Some? &&
    forall t, r :: t in k.capture.manifest.incident.value.triggers && r in Retained(k.rec) && Overlaps(r, t) ==>
      HeldExactly(k, r)
  }

  predicate HeldExactly(k: Taken, r: Metric) {
    r in PieceMetrics(k.capture.segments) <==>
      r.end <= k.capture.manifest.end && (HasRollup(k.rec) || r.start >= DetailFrom(k.rec))
  }

  ghost predicate Polling(x: Engine, clock: nat) {
    Steady(x.rec, x.offered, clock) && Order(x.offered) && PollsEnd(x.offered, x.sys.last) &&
    forall k :: k in x.taken ==> Complete(k)
  }

  lemma SelectedComplete(x: Engine, from: nat, clock: nat)
    requires Sensible(x, from) && Polling(x, clock) && C.Enabled(x.sys, C.BeginWrite)
    ensures x.sys.ctl.current.value.detected <= x.sys.ctl.current.value.end
    ensures Complete(Taken(x.rec, x.offered, Selected(x)))
  {
    ChosenWindow(x.sys, from);
    hide S.SinceStart, R.Inv, S.SnapshotWindow, Retained, Steady, Order, Witnessed, HasRollup, DetailFrom, Overlaps,
        Accounted, ReadySince, C.Inv, Spec.WindowStart;
    var end, start := Spec.Chosen(x.sys.ctl).end, Spec.WindowStart(x.sys.ctl);
    var k := Taken(x.rec, x.offered, Selected(x));
    forall t, r | t in k.capture.manifest.incident.value.triggers && r in Retained(x.rec) && Overlaps(r, t)
      ensures HeldExactly(k, r)
    {
      PolledEvidence(x.rec, x.offered, clock, start, end, x.host, t, r);
    }
  }

  lemma {:induction false} OfferedAll(ms: seq<Metric>, t: nat)
    ensures Offered(seq(|ms|, i requires 0 <= i < |ms| => Aggregate(ms[i], t))) == ms
  {
    var ops := seq(|ms|, i requires 0 <= i < |ms| => Aggregate(ms[i], t));
    if |ms| > 0 {
      var rest := ms[1..];
      OfferedAll(rest, t);
      assert ops[1..] == seq(|rest|, i requires 0 <= i < |rest| => Aggregate(rest[i], t));
      assert ms == [ms[0]] + rest;
    }
  }

  lemma OffersPolls(ms: seq<Metric>, t: nat)
    ensures Offered(Offers(ms, t)) == ms
  {
    OfferedAll(ms, t);
    assert Offers(ms, t)[1..] == seq(|ms|, i requires 0 <= i < |ms| => Aggregate(ms[i], t));
  }

  lemma {:induction false} PollsAt(ops: seq<Op>, t: nat, clock: nat)
    requires clock <= t && forall op :: op in ops ==> op.now == t && (op.Aggregate? ==> op.metric.end == t)
    ensures PollsSteadily(ops, clock)
    decreases |ops|
  {
    if |ops| > 0 {
      assert ops[0] in ops;
      PollsAt(ops[1..], t, t);
    }
  }

  lemma PollOrder(offered: seq<Metric>, ms: seq<Metric>, last: nat, t: nat)
    requires Order(offered) && PollsEnd(offered, last) && last <= t
    requires forall m :: m in ms ==> m.start == last && m.end == t
    requires forall i, j :: 0 <= i < j < |ms| ==> ms[i].family != ms[j].family
    ensures Order(offered + ms) && PollsEnd(offered + ms, t)
  {
    var all := offered + ms;
    forall i, j | 0 <= i < j < |all|
      ensures all[i].start <= all[j].start && (all[i].family == all[j].family ==> all[i].end <= all[j].start)
    {
      if j >= |offered| {
        assert all[j] == ms[j - |offered|] && all[j] in ms;
        assert if i < |offered| then all[i] in offered else all[i] == ms[i - |offered|] && all[i] in ms;
      }
    }
  }

  lemma CollectPolls(x: Engine, t: nat, ms: seq<Metric>, clock: nat)
    requires Buffered(x.rec) && Polling(x, clock) && clock <= t && C.Enabled(x.sys, C.Poll(t, ms))
    requires forall i, j :: 0 <= i < j < |ms| ==> ms[i].family != ms[j].family
    ensures Steady(Run(x.rec, Offers(ms, t)), x.offered + ms, t)
    ensures Order(x.offered + ms) && PollsEnd(x.offered + ms, t)
  {
    hide Steady, Order, PollsEnd;
    PollOrder(x.offered, ms, x.sys.last, t);
    OffersPolls(ms, t);
    forall op | op in Offers(ms, t) ensures op.now == t && (op.Aggregate? ==> op.metric.end == t) {
      if op != Tick(t) {
        var i :| 0 <= i < |ms| && op == Aggregate(ms[i], t);
        assert ms[i] in ms;
      }
    }
    PollsAt(Offers(ms, t), t, clock);
    var last := RunSteady(x.rec, Offers(ms, t), x.offered, clock);
    assert Offers(ms, t)[|Offers(ms, t)| - 1] in Offers(ms, t);
  }

  lemma TurnPolls(x: Engine, turn: Turn, from: nat, clock: nat)
    requires Sensible(x, from) && Polling(x, clock) && Enabled(x, turn) && Buffered(x.rec) && Clocked([turn], clock)
    ensures Polling(Apply(x, turn), Later(turn, clock))
  {
    hide Steady, Order, Complete, Selected, Run, Offers, Step, R.Inv, S.SinceStart, Accounted, Backed, C.Inv;
    match turn
    case Observe(op) => StepSteady(x.rec, op, x.offered, clock);
    case Collect(t, ms) => CollectPolls(x, t, ms, clock);
    case BeginCapture => SelectedComplete(x, from, clock);
    case _ =>
  }

  function Later(turn: Turn, clock: nat): nat {
    match turn
    case Observe(op) => op.now
    case Collect(t, _) => t
    case _ => clock
  }

  lemma ClockedNext(turns: seq<Turn>, clock: nat)
    requires |turns| > 0 && Clocked(turns, clock)
    ensures Clocked([turns[0]], clock) && Clocked(turns[1..], Later(turns[0], clock))
  {
    var rest := turns[1..];
    var none := [turns[0]][1..];
    assert none == [];
    match turns[0]
    case Observe(op) => assert Clocked(none, op.now) && Clocked(rest, op.now);
    case Collect(t, ms) => assert Clocked(none, t) && Clocked(rest, t);
    case BeginCapture => assert Clocked(none, clock) && Clocked(rest, clock);
    case Complete(_, _) => assert Clocked(none, clock) && Clocked(rest, clock);
    case SensorLost(_) => assert Clocked(none, clock) && Clocked(rest, clock);
  }

  lemma {:induction false} PollingRun(x: Engine, turns: seq<Turn>, from: nat, clock: nat)
    requires Sensible(x, from) && AllGood(x.taken) && Possible(x, turns, from)
    requires Polling(x, clock) && Clocked(turns, clock)
    ensures forall k :: k in After(x, turns, from).taken ==> Complete(k)
    decreases |turns|
  {
    hide Polling, Sensible, Enabled, AllGood, Clocked, Later;
    if |turns| == 0 {
      PollingTaken(x, clock);
    } else {
      ClockedNext(turns, clock);
      SensibleBuffers(x, from);
      TurnHolds(x, turns[0], from);
      TurnPolls(x, turns[0], from, clock);
      PollingRun(Apply(x, turns[0]), turns[1..], from, Later(turns[0], clock));
    }
  }

  lemma PollingTaken(x: Engine, clock: nat)
    requires Polling(x, clock)
    ensures forall k :: k in x.taken ==> Complete(k)
  {
  }

  lemma SensibleBuffers(x: Engine, from: nat)
    requires Sensible(x, from)
    ensures Buffered(x.rec) && C.Inv(x.sys)
  {
    R.InvBuffers(x.rec);
  }

  lemma StartPolling(history: nat, max: nat, interval: nat, config: Spec.Config, sensors: seq<string>, host: Host,
                     now: nat)
    requires SEGMENT_COST <= max && C.Sound(config) && ValidClock(host)
    ensures Polling(Start(history, max, interval, config, sensors, host, now), now)
  {
    hide C.Inv;
    NewSteady(history, max, interval, now);
  }

  /** Over any run whose clock never goes back and whose polls bring one metric of each family:
      every capture handed to the writer holds, of the aggregates still retained over its
      triggers' spans, exactly those ending in its window, except that without rollups an
      aggregate straddling the start of the oldest segment is left out. */
  lemma PolledCapturesAreComplete(history: nat, max: nat, interval: nat, config: Spec.Config, sensors: seq<string>,
                                  host: Host, now: nat, turns: seq<Turn>)
    requires SEGMENT_COST <= max && C.Sound(config) && ValidClock(host) && Clocked(turns, now)
    requires Possible(Start(history, max, interval, config, sensors, host, now), turns, now)
    ensures forall k :: k in After(Start(history, max, interval, config, sensors, host, now), turns, now).taken ==>
              Complete(k)
  {
    var x := Start(history, max, interval, config, sensors, host, now);
    StartPolling(history, max, interval, config, sensors, host, now);
    hide *;
    PollingRun(x, turns, now, now);
  }
}
