/** The recorder loop joining recorder, controller and container: every capture it hands to
    the writer passes the reader's checks. */
module AutomaticCapture {
  import opened Telemetry
  import opened CaptureModel
  import opened RecorderSpec
  import R = RecorderInvariant
  import S = SnapshotSpec
  import C = ControllerRuns
  import Spec = ControllerSpec
  import Container
  import ContainerReader
  import Conservation = RecorderConservation
  import opened SnapshotCoverage
  import opened CaptureEvidence

  /** A capture handed to the writer, with the recorder and all polls so far at that moment. */
  datatype Taken = Taken(rec: State, offered: seq<Metric>, capture: Capture)

  /** The loop's recorder and controller, every metric polled, and every capture handed over. */
  datatype Engine = Engine(rec: State, sys: C.Sys, host: Host, offered: seq<Metric>, taken: seq<Taken>)

  datatype Turn =
    | Observe(op: Op)                              // a detail, or time passing
    | Collect(t: nat, metrics: seq<Metric>)        // one poll of every sensor
    | BeginCapture
    | Complete(published: bool, failed: bool)
    | SensorLost(family: string)

  /** Every family's accepted totals are accounted for, at every instant. */
  ghost predicate Accounted(s: State) {
    forall family: string, instant: nat :: Conservation.Balanced(s, family, instant)
  }

  ghost predicate Sensible(x: Engine, from: nat) {
    R.Inv(x.rec) && S.SinceStart(x.rec) && x.rec.started == from && C.Inv(x.sys) && from <= x.sys.last &&
    ReadySince(x.sys.ctl, from) && ValidClock(x.host) && Accounted(x.rec) && Backed(x.sys.ctl, x.offered)
  }

  predicate ReadySince(c: Spec.Control, from: nat) {
    (c.currentReady == 0 || from <= c.currentReady) && (c.nextReady == 0 || from <= c.nextReady)
  }

  ghost predicate AllGood(ks: seq<Taken>) {
    forall k :: k in ks ==> WindowsAgree(k.capture) && Evidence(k)
  }

  /** The evidence for one trigger: the window wholly contains its interval, whose first and last
      polls carried observations; of each instant, the history still holds what was accepted and
      not lost, and the capture holds exactly what of that ends in the window and is in reach. */
  ghost predicate HasEvidence(k: Taken, t: Trigger) {
    var m := k.capture.manifest;
    m.requestedStart <= t.firstStart && t.lastEnd <= m.end && Witnessed(t, k.offered) &&
    forall instant: nat :: t.firstStart <= instant < t.lastEnd ==> InstantHeld(k, t.family, instant)
  }

  ghost predicate InstantHeld(k: Taken, family: string, instant: nat) {
    var m := k.capture.manifest;
    (Covered(Retained(k.rec), family, instant) <==> Survives(k.rec.ledger, family, instant)) &&
    (Covered(PieceMetrics(k.capture.segments), family, instant) <==>
       Selects(k.rec, m.requestedStart, m.end, family, instant))
  }

  ghost predicate Evidence(k: Taken) {
    k.capture.manifest.incident.Some? &&
    forall t :: t in k.capture.manifest.incident.value.triggers ==> HasEvidence(k, t)
  }

  function Action(turn: Turn): C.Action
    requires !turn.Observe?
  {
    match turn
    case Collect(t, ms) => C.Poll(t, ms)
    case BeginCapture => C.BeginWrite
    case Complete(published, failed) => C.FinishWrite(published, failed)
    case SensorLost(family) => C.SensorLost(family)
  }

  predicate Enabled(x: Engine, turn: Turn) {
    if turn.Observe? then !turn.op.Aggregate? else C.Enabled(x.sys, Action(turn))
  }

  function Offers(ms: seq<Metric>, t: nat): seq<Op> {
    [Tick(t)] + seq(|ms|, i requires 0 <= i < |ms| => Aggregate(ms[i], t))
  }

  function Selected(x: Engine): Capture
    requires x.sys.ctl.current.Some? && x.sys.ctl.current.value.detected <= x.sys.ctl.current.value.end
  {
    var incident := Spec.Chosen(x.sys.ctl);
    var c := S.SnapshotWindow(x.rec, Spec.WindowStart(x.sys.ctl), incident.end, x.host);
    c.(manifest := c.manifest.(incident := Some(incident)))
  }

  function Apply(x: Engine, turn: Turn): Engine
    requires Buffered(x.rec) && C.Inv(x.sys) && Enabled(x, turn)
  {
    match turn
    case Observe(op) => x.(rec := Step(x.rec, op))
    case Collect(t, ms) =>
      x.(rec := Run(x.rec, Offers(ms, t)), sys := C.Apply(x.sys, Action(turn)), offered := x.offered + ms)
    case BeginCapture =>
      x.(sys := C.Apply(x.sys, Action(turn)), taken := x.taken + [Taken(x.rec, x.offered, Selected(x))])
    case _ => x.(sys := C.Apply(x.sys, Action(turn)))
  }

  // ----- one turn -----

  lemma OffersLegal(x: Engine, t: nat, ms: seq<Metric>, from: nat)
    requires from <= x.sys.last && C.Enabled(x.sys, C.Poll(t, ms))
    ensures forall op :: op in Offers(ms, t) ==> Legal(op) && (op.Aggregate? ==> op.metric.start >= from)
  {
    forall op | op in Offers(ms, t) ensures Legal(op) && (op.Aggregate? ==> op.metric.start >= from) {
      if op != Tick(t) {
        var i :| 0 <= i < |ms| && op == Aggregate(ms[i], t);
        assert ms[i] in ms;
      }
    }
  }

  lemma {:induction false} ObserveReady(x: C.Scan, ms: seq<Metric>, last: nat, t: nat, from: nat, offered: seq<Metric>)
    requires x.ctl.next.Some? ==> x.ctl.next.value.detected <= t
    requires ReadySince(x.ctl, from) && Backed(x.ctl, offered) && forall m :: m in ms ==> m in offered
    ensures ReadySince(C.ObserveAll(x, ms, last, t).ctl, from) && Backed(C.ObserveAll(x, ms, last, t).ctl, offered)
    decreases |ms|
  {
    hide Backed;
    if |ms| > 0 {
      assert ms[0] in ms;
      C.DetectedInTime(x, ms[0], last, t);
      ObserveBacked(x.ctl, ms[0], t, offered);
      ObserveReady(C.ObserveOne(x, ms[0], last, t), ms[1..], last, t, from, offered);
    }
  }

  /** The metrics an action shows the controller. */
  function Polled(a: C.Action): seq<Metric> {
    if a.Poll? then a.metrics else []
  }

  lemma ControlStep(x: C.Sys, a: C.Action, from: nat, offered: seq<Metric>)
    requires C.Inv(x) && C.Enabled(x, a) && from <= x.last && ReadySince(x.ctl, from) && Backed(x.ctl, offered)
    ensures var r := C.Apply(x, a);
            C.Inv(r) && from <= r.last && ReadySince(r.ctl, from) && Backed(r.ctl, offered + Polled(a))
  {
    hide Witnessed;
    C.ApplyHolds(x, a);
    MoreBacked(x.ctl, offered, Polled(a));
    if a.Poll? {
      var scan := C.Scan(x.ctl, x.prior, x.nextPrior);
      C.MidDetected(scan, x.last, x.last);
      ObserveReady(scan, a.metrics, x.last, a.t, from, offered + a.metrics);
    }
  }

  /** The capture of an incident whose deadline has been collected passes every window rule and
      holds the evidence for each of its triggers. */
  lemma SelectedAgrees(x: Engine, from: nat)
    requires Sensible(x, from) && C.Enabled(x.sys, C.BeginWrite)
    ensures x.sys.ctl.current.value.detected <= x.sys.ctl.current.value.end
    ensures WindowsAgree(Selected(x)) && Evidence(Taken(x.rec, x.offered, Selected(x)))
    ensures ValidClock(Selected(x).host) && Selected(x).manifest.formatVersion == FORMAT_VERSION
  {
    hide WindowsAgree, S.SinceStart, R.Inv, S.Actual, S.Pieces, HasEvidence;
    ChosenWindow(x.sys, from);
    var incident := Spec.Chosen(x.sys.ctl);
    S.SnapshotAgrees(x.rec, Spec.WindowStart(x.sys.ctl), incident.end, x.host);
    AddIncident(S.SnapshotWindow(x.rec, Spec.WindowStart(x.sys.ctl), incident.end, x.host), incident);
    forall t | t in incident.triggers ensures HasEvidence(Taken(x.rec, x.offered, Selected(x)), t) {
      EvidenceHeld(x, from, t);
    }
  }

  lemma EvidenceHeld(x: Engine, from: nat, t: Trigger)
    requires Sensible(x, from) && C.Enabled(x.sys, C.BeginWrite)
    requires x.sys.ctl.current.value.detected <= x.sys.ctl.current.value.end
    requires t in Spec.Chosen(x.sys.ctl).triggers
    ensures HasEvidence(Taken(x.rec, x.offered, Selected(x)), t)
  {
    hide S.SinceStart, R.Inv, S.Actual, S.Pieces, Selects, Survives, Witnessed, Covered, Conservation.Balanced,
        InstantHeld;
    ChosenWindow(x.sys, from);
    var end, start := Spec.Chosen(x.sys.ctl).end, Spec.WindowStart(x.sys.ctl);
    var k := Taken(x.rec, x.offered, Selected(x));
    forall instant: nat ensures InstantHeld(k, t.family, instant) {
      assert Conservation.Balanced(x.rec, t.family, instant);
      RetainedExactly(x.rec, t.family, instant);
      CapturedInstant(x.rec, start, end, x.host, t.family, instant);
      SelectedHolds(k, start, end, x.host, t.family, instant);
    }
  }

  lemma SelectedHolds(k: Taken, start: nat, end: nat, host: Host, family: string, instant: nat)
    requires k.capture.segments == S.SnapshotWindow(k.rec, start, end, host).segments
    requires k.capture.manifest.requestedStart == start && k.capture.manifest.end == end
    requires Covered(Retained(k.rec), family, instant) <==> Survives(k.rec.ledger, family, instant)
    requires Covered(PieceMetrics(S.SnapshotWindow(k.rec, start, end, host).segments), family, instant) <==>
               Selects(k.rec, start, end, family, instant)
    ensures InstantHeld(k, family, instant)
  {
    hide Covered, Survives, Selects, S.SnapshotWindow;
  }

  lemma ChosenWindow(s: C.Sys, from: nat)
    requires C.Inv(s) && C.Enabled(s, C.BeginWrite) && from <= s.last && ReadySince(s.ctl, from)
    ensures s.ctl.current.value.detected <= s.ctl.current.value.end
    ensures var a, start := Spec.Chosen(s.ctl), Spec.WindowStart(s.ctl);
            ValidIncident(a, a.end) && from <= a.end && start <= a.end &&
            forall t :: t in a.triggers ==> start <= t.firstStart && t.lastEnd <= a.end
  {
    C.ChosenGood(s);
    var a := Spec.Chosen(s.ctl);
    assert a.triggers[0] in a.triggers;
  }

  lemma AddIncident(c: Capture, incident: Incident)
    requires WindowsAgree(c) && ValidIncident(incident, c.manifest.end)
    ensures WindowsAgree(c.(manifest := c.manifest.(incident := Some(incident))))
  {
  }

  lemma TurnHolds(x: Engine, turn: Turn, from: nat)
    requires Sensible(x, from) && AllGood(x.taken) && Enabled(x, turn) && Buffered(x.rec)
    ensures Sensible(Apply(x, turn), from) && AllGood(Apply(x, turn).taken)
  {
    hide R.Inv, S.SinceStart, C.Inv, C.Enabled, C.Apply, WindowsAgree, Evidence, Accounted, Backed,
        ReadySince, Step, Run, Offers, Selected, Buffered;
    match turn
    case Observe(op) =>
      R.StepHolds(x.rec, op);
      S.StepSinceStart(x.rec, op);
      StepAccounted(x.rec, op);
    case Collect(t, ms) =>
      OffersLegal(x, t, ms, from);
      R.RunHolds(x.rec, Offers(ms, t));
      S.RunSinceStart(x.rec, Offers(ms, t));
      RunAccounted(x.rec, Offers(ms, t));
      ControlStep(x.sys, Action(turn), from, x.offered);
    case BeginCapture =>
      SelectedAgrees(x, from);
      ControlStep(x.sys, Action(turn), from, x.offered);
      assert x.offered + [] == x.offered;
    case _ =>
      ControlStep(x.sys, Action(turn), from, x.offered);
      assert x.offered + [] == x.offered;
  }

  lemma StepAccounted(s: State, op: Op)
    requires R.Inv(s) && Legal(op) && Accounted(s)
    ensures Buffered(s) && Accounted(Step(s, op))
  {
    hide R.Inv, Conservation.Balanced, Step;
    R.InvBuffers(s);
    forall family: string, instant: nat ensures Conservation.Balanced(Step(s, op), family, instant) {
      assert Conservation.Balanced(s, family, instant);
      Conservation.StepBalances(s, op, family, instant);
    }
  }

  lemma RunAccounted(s: State, ops: seq<Op>)
    requires R.Inv(s) && Accounted(s) && forall op :: op in ops ==> Legal(op)
    ensures Buffered(s) && Accounted(Run(s, ops))
  {
    hide R.Inv, Conservation.Balanced, Run;
    R.InvBuffers(s);
    forall family: string, instant: nat ensures Conservation.Balanced(Run(s, ops), family, instant) {
      assert Conservation.Balanced(s, family, instant);
      Conservation.RunBalances(s, ops, family, instant);
    }
  }

  lemma NewAccounted(history: nat, max: nat, interval: nat, now: nat)
    ensures Accounted(New(history, max, interval, now))
  {
    Conservation.NewIsEmpty(history, max, interval, now);
    Conservation.JoinLaws(Conservation.Nothing(), Conservation.Nothing(), Conservation.Nothing());
  }

  // ----- runs -----

  function Start(history: nat, max: nat, interval: nat, config: Spec.Config, sensors: seq<string>, host: Host,
                 now: nat): (x: Engine)
    requires SEGMENT_COST <= max && C.Sound(config) && ValidClock(host)
    ensures Sensible(x, now) && x.taken == []
  {
    R.NewHolds(history, max, interval, now);
    S.NewSinceStart(history, max, interval, now);
    NewAccounted(history, max, interval, now);
    Engine(New(history, max, interval, now), C.Start(config, sensors, now), host, [], [])
  }

  predicate Possible(x: Engine, turns: seq<Turn>, from: nat)
    requires Sensible(x, from) && AllGood(x.taken)
    decreases |turns|
  {
    |turns| == 0 ||
    (Enabled(x, turns[0]) &&
     (R.InvBuffers(x.rec); TurnHolds(x, turns[0], from); Possible(Apply(x, turns[0]), turns[1..], from)))
  }

  function After(x: Engine, turns: seq<Turn>, from: nat): (r: Engine)
    requires Sensible(x, from) && AllGood(x.taken) && Possible(x, turns, from)
    ensures Sensible(r, from) && AllGood(r.taken)
    decreases |turns|
  {
    if |turns| == 0 then x
    else
      R.InvBuffers(x.rec);
      TurnHolds(x, turns[0], from);
      After(Apply(x, turns[0]), turns[1..], from)
  }

  /** If the writer accepts the capture, the reader accepts the archive and returns the capture. */
  predicate ReadBack(l: Container.Limits, j: Container.Codec, c: Capture) {
    Container.Writable(l, j, c) ==>
      var a := Container.Written(j, c);
      ContainerReader.Readable(l, j, a) && ContainerReader.Content(j, a.entries) == c
  }

  lemma AgreeingReadBack(l: Container.Limits, j: Container.Codec, c: Capture)
    requires WindowsAgree(c) && Container.Faithful(j)
    ensures ReadBack(l, j, c)
  {
    hide WindowsAgree, ContainerReader.Content, ContainerReader.Readable, Container.Written, Container.Writable,
      Container.Faithful;
    if Container.Writable(l, j, c) {
      ContainerReader.RoundTrip(l, j, c);
    }
  }

  /** Over any interleaving of details, polls, hand-overs, completions and sensor losses, from
      any sound configuration: for every trigger of a capture handed to the writer, the capture
      holds each instant of the triggering interval exactly when the history of that moment still
      has an aggregate over it that ends in the window and is in reach; and whatever the writer
      accepts the reader accepts and returns unchanged, so validation before publication never
      refuses it. */
  lemma EveryCaptureIsReadable(history: nat, max: nat, interval: nat, config: Spec.Config, sensors: seq<string>,
                               host: Host, now: nat, turns: seq<Turn>, l: Container.Limits, j: Container.Codec)
    requires SEGMENT_COST <= max && C.Sound(config) && ValidClock(host)
    requires Possible(Start(history, max, interval, config, sensors, host, now), turns, now)
    requires Container.Faithful(j)
    ensures forall k :: k in After(Start(history, max, interval, config, sensors, host, now), turns, now).taken ==>
              Evidence(k) && ReadBack(l, j, k.capture)
  {
    var x := Start(history, max, interval, config, sensors, host, now);
    forall k | k in After(x, turns, now).taken ensures Evidence(k) && ReadBack(l, j, k.capture) {
      hide WindowsAgree, Evidence, ReadBack, Container.Faithful, Start, Possible, Sensible;
      AgreeingReadBack(l, j, k.capture);
    }
  }
}
