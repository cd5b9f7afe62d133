/** The controller, the background writer and the capture directory as one system: what the loop
    believes was saved against what the directory holds. */
module AutomaticWriter {
  import opened Telemetry
  import opened CaptureModel
  import C = ControllerRuns
  import Spec = ControllerSpec
  import L = Lease
  import T = Store

  /** What became of one incident: what its save returned, the file it linked and the window's end. */
  datatype Report = Report(result: T.SaveResult, links: seq<T.File>, end: nat)

  /** `job` is the end of the window being written; `saved` is a result on its way to the loop. */
  datatype Daemon = Daemon(sys: C.Sys, lease: L.State, content: set<T.File>, job: nat,
                           saved: Option<Report>, done: seq<Report>)

  datatype Turn =
    | Control(act: C.Action)                   // a poll, or a sensor lost
    | Party(step: L.Step)                      // the loop, the worker or a client on its own
    | Begin(another: bool)                     // an incident is handed to the writer
    | Save(steps: seq<T.Step>, links: seq<T.File>, result: T.SaveResult)
    | Deliver(step: L.Step)                    // the loop receives a result
    | Discard                                  // shutdown drops a job that was never received
    | Vanish(file: T.File)                     // someone else removes a capture between saves

  /** A path is returned: the link was made and its name made durable. */
  predicate Published(r: Report) {
    !r.result.Unpublished?
  }

  /** Steps that neither begin, save nor finish an incident. */
  predicate Alone(s: L.State, step: L.Step) {
    !step.BeginIncident? && !step.WorkerRelease? && !step.Collect? && !step.Discard? &&
    (step.DrainResult? ==> s.results == 0)
  }

  /** The loop takes a result from the writer, in its turn or at shutdown. */
  predicate Delivers(s: L.State, step: L.Step) {
    L.Enabled(s, step) && (step.Collect? || step.DrainResult?) && s.results > 0
  }

  predicate Enabled(x: Daemon, turn: Turn, l: T.Limits) {
    match turn
    case Control(a) => x.lease.main.Loop? && (a.Poll? || a.SensorLost?) && C.Enabled(x.sys, a)
    case Party(step) =>
      L.Enabled(x.lease, step) && Alone(x.lease, step) && (step.Reserve? ==> C.Enabled(x.sys, C.BeginWrite))
    case Begin(another) => L.Enabled(x.lease, L.BeginIncident(another)) && C.Enabled(x.sys, C.BeginWrite)
    case Save(steps, links, r) =>
      x.lease.worker.Saving? && T.Returns(steps, links, r) && T.Possible(T.State(x.content, T.Off), steps, l)
    case Deliver(step) => Delivers(x.lease, step) && x.saved.Some? && x.sys.ctl.writing
    case Discard => L.Enabled(x.lease, L.Discard) && x.sys.ctl.writing
    case Vanish(_) => true
  }

  function Finished(x: Daemon, step: L.Step, r: Report): Daemon
    requires C.Inv(x.sys) && C.Enabled(x.sys, C.FinishWrite(Published(r), !r.result.Saved?))
    requires L.Enabled(x.lease, step)
  {
    x.(sys := C.Apply(x.sys, C.FinishWrite(Published(r), !r.result.Saved?)), lease := L.Apply(x.lease, step),
       saved := None, done := x.done + [r])
  }

  function Apply(x: Daemon, turn: Turn, l: T.Limits): Daemon
    requires C.Inv(x.sys) && Enabled(x, turn, l)
  {
    match turn
    case Control(a) => x.(sys := C.Apply(x.sys, a))
    case Party(step) => x.(lease := L.Apply(x.lease, step))
    case Begin(another) =>
      C.ChosenGood(x.sys);
      x.(sys := C.Apply(x.sys, C.BeginWrite), lease := L.Apply(x.lease, L.BeginIncident(another)),
         job := Spec.Chosen(x.sys.ctl).end)
    case Save(steps, links, r) =>
      x.(lease := L.Apply(x.lease, L.WorkerRelease), content := T.After(T.State(x.content, T.Off), steps, l).content,
         saved := Some(Report(r, links, x.job)))
    case Deliver(step) => Finished(x, step, x.saved.value)
    case Discard => Finished(x, L.Discard, Report(T.Unpublished, [], x.job))
    case Vanish(f) => x.(content := x.content - {f})
  }

  // ----- what the reports say -----

  /** The end of the last window whose save returned a path. */
  function Boundary(done: seq<Report>): nat {
    if |done| == 0 then 0
    else
      var r := done[|done| - 1];
      if Published(r) then r.end else Boundary(done[..|done| - 1])
  }

  function Paths(done: seq<Report>): nat {
    if |done| == 0 then 0 else Paths(done[..|done| - 1]) + if Published(done[|done| - 1]) then 1 else 0
  }

  function Errors(done: seq<Report>): nat {
    if |done| == 0 then 0 else Errors(done[..|done| - 1]) + if done[|done| - 1].result.Saved? then 0 else 1
  }

  predicate Sound(r: Report) {
    |r.links| <= 1 && (Published(r) ==> |r.links| == 1)
  }

  // ----- the invariant -----

  /** The loop and the writer agree on whether an incident is being written. */
  predicate Agree(x: Daemon) {
    x.lease.writing == x.sys.ctl.writing && |x.sys.begun| == x.lease.begun && |x.done| == x.lease.finished &&
    (x.lease.main.Reserved? ==> C.Enabled(x.sys, C.BeginWrite))
  }

  /** A result exists exactly from the save to its delivery, and is about the window being written. */
  predicate Carried(x: Daemon) {
    (x.saved.Some? <==> x.lease.worker.Sending? || x.lease.results > 0) &&
    (x.saved.Some? ==> Sound(x.saved.value) && x.saved.value.end == x.job) &&
    (x.lease.writing ==>
       x.job == x.sys.ctl.writingEnd && |x.sys.begun| > 0 && x.job == x.sys.begun[|x.sys.begun| - 1].incident.end)
  }

  /** The controller's boundary and counters are those of the reports. */
  predicate Counted(x: Daemon) {
    var c := x.sys.ctl;
    c.lastSavedEnd == Boundary(x.done) && c.saved == Paths(x.done) && c.failures == Errors(x.done) &&
    (forall r :: r in x.done ==> Sound(r) && (Published(r) ==> r.end <= c.lastSavedEnd))
  }

  /** Reports come in the order of their windows, and each window knew of all paths before it. */
  predicate InOrder(x: Daemon) {
    |x.done| <= |x.sys.begun| &&
    (forall i :: 0 <= i < |x.done| ==> x.done[i].end == x.sys.begun[i].incident.end) &&
    forall i, j :: 0 <= i < j < |x.sys.begun| && i < |x.done| && Published(x.done[i]) ==>
      x.done[i].end <= x.sys.begun[j].savedEnd
  }

  ghost predicate Inv(x: Daemon, l: T.Limits) {
    C.Inv(x.sys) && L.Inv(x.lease) && Agree(x) && Carried(x) && Counted(x) && InOrder(x) &&
    T.AtMost(x.content, l.maxFiles + 1, l.maxStorage + l.maxFile)
  }

  /** What the two protocols say of an incident being written. */
  lemma Flowing(x: Daemon, l: T.Limits)
    requires Inv(x, l)
    ensures x.lease.begun == x.lease.finished + L.One(x.lease.writing)
    ensures x.lease.worker.Saving? || x.lease.worker.Sending? || x.lease.results > 0 ==> x.lease.writing
    ensures x.lease.main.Discarding? || x.lease.main.Handing? ==> x.lease.writing
    ensures x.lease.main.Reserved? ==> !x.lease.writing
    ensures x.lease.worker.Sending? ==> x.lease.results == 0
    ensures x.lease.main.Discarding? ==> !x.lease.worker.Sending? && x.lease.results == 0
    ensures x.lease.results <= 1
  {
    hide C.Inv, Agree, Carried, Counted, InOrder, L.OneLive, L.Closing;
  }

  /** The controller is never asked for what it has not got: whenever the loop has taken the lease
      there is an incident to begin, and whenever it receives a result or drops a job there is one
      to finish. */
  lemma HandoversNeverBlock(x: Daemon, another: bool, step: L.Step, l: T.Limits)
    requires Inv(x, l)
    ensures L.Enabled(x.lease, L.BeginIncident(another)) ==> Enabled(x, Begin(another), l)
    ensures Delivers(x.lease, step) ==> Enabled(x, Deliver(step), l)
    ensures L.Enabled(x.lease, L.Discard) ==> Enabled(x, Discard, l)
  {
    hide C.Inv, L.Inv, Counted, InOrder, T.AtMost;
    Flowing(x, l);
  }

  // ----- each turn -----

  /** A poll leaves everything about the writer alone. */
  predicate SameWriter(a: Spec.Control, b: Spec.Control) {
    a.writing == b.writing && a.writingEnd == b.writingEnd && a.lastSavedEnd == b.lastSavedEnd &&
    a.saved == b.saved && a.failures == b.failures
  }

  lemma {:induction false} ObserveSameWriter(s: C.Scan, ms: seq<Metric>, last: nat, t: nat)
    requires s.ctl.next.Some? ==> s.ctl.next.value.detected <= t
    ensures SameWriter(s.ctl, C.ObserveAll(s, ms, last, t).ctl)
    decreases |ms|
  {
    if |ms| > 0 {
      C.DetectedInTime(s, ms[0], last, t);
      ObserveSameWriter(C.ObserveOne(s, ms[0], last, t), ms[1..], last, t);
    }
  }

  lemma ControlSame(s: C.Sys, a: C.Action)
    requires C.Inv(s) && C.Enabled(s, a) && (a.Poll? || a.SensorLost?)
    ensures var r := C.Apply(s, a); C.Inv(r) && SameWriter(s.ctl, r.ctl) && r.begun == s.begun
  {
    C.ApplyHolds(s, a);
    if a.Poll? {
      C.MidDetectedNow(s, a.t, a.metrics);
      ObserveSameWriter(C.Scan(s.ctl, s.prior, s.nextPrior), a.metrics, s.last, a.t);
    }
  }

  lemma ControlHolds(x: Daemon, a: C.Action, l: T.Limits)
    requires Inv(x, l) && Enabled(x, Control(a), l)
    ensures Inv(Apply(x, Control(a), l), l)
  {
    ControlSame(x.sys, a);
    hide C.Inv, L.Inv, C.Apply, T.AtMost;
  }

  lemma PartyHolds(x: Daemon, step: L.Step, l: T.Limits)
    requires Inv(x, l) && Enabled(x, Party(step), l)
    ensures Inv(Apply(x, Party(step), l), l)
  {
    hide C.Inv, L.Inv, L.Apply, L.Enabled, C.Enabled, T.AtMost, Counted, InOrder;
    Flowing(x, l);
    L.StepHolds(x.lease, step);
    PartySame(x.lease, step);
    var y := x.(lease := L.Apply(x.lease, step));
    assert Counted(y) by { SameReports(x, y); }
    assert InOrder(y) by { SameReports(x, y); }
  }

  lemma SameReports(x: Daemon, y: Daemon)
    requires y.sys.begun == x.sys.begun && y.done == x.done && SameWriter(x.sys.ctl, y.sys.ctl)
    ensures Counted(x) ==> Counted(y)
    ensures InOrder(x) ==> InOrder(y)
  {
  }

  /** What a step on its own leaves of the writer's protocol. */
  lemma PartySame(s: L.State, step: L.Step)
    requires L.Enabled(s, step) && Alone(s, step)
    ensures var r := L.Apply(s, step);
            r.writing == s.writing && r.begun == s.begun && r.finished == s.finished &&
            (r.worker.Sending? || r.results > 0 <==> s.worker.Sending? || s.results > 0) &&
            (r.main.Reserved? ==> s.main.Reserved? || step.Reserve?)
  {
    PartyIncident(s, step);
    PartyResult(s, step);
    hide L.Apply, L.Enabled, Alone;
  }

  lemma PartyIncident(s: L.State, step: L.Step)
    requires L.Enabled(s, step) && Alone(s, step)
    ensures var r := L.Apply(s, step);
            r.writing == s.writing && r.begun == s.begun && r.finished == s.finished &&
            (r.main.Reserved? ==> s.main.Reserved? || step.Reserve?)
  {
  }

  lemma PartyResult(s: L.State, step: L.Step)
    requires L.Enabled(s, step) && Alone(s, step)
    ensures var r := L.Apply(s, step); r.worker.Sending? || r.results > 0 <==> s.worker.Sending? || s.results > 0
  {
  }

  lemma BeginHolds(x: Daemon, another: bool, l: T.Limits)
    requires Inv(x, l) && Enabled(x, Begin(another), l)
    ensures Inv(Apply(x, Begin(another), l), l)
  {
    hide C.Inv, L.Inv, L.Apply, L.Enabled, C.Apply, T.AtMost, Counted, InOrder, Spec.Chosen;
    Flowing(x, l);
    C.ApplyHolds(x.sys, C.BeginWrite);
    L.StepHolds(x.lease, L.BeginIncident(another));
    BeginLease(x.lease, another);
    BeginSystem(x.sys);
    var y := Apply(x, Begin(another), l);
    assert Counted(y) by { SameCounts(x, y); }
    assert InOrder(y) by { BegunOrder(x, y); }
  }

  lemma BeginLease(s: L.State, another: bool)
    requires L.Enabled(s, L.BeginIncident(another))
    ensures var r := L.Apply(s, L.BeginIncident(another));
            r.writing && r.begun == s.begun + 1 && r.finished == s.finished && !r.main.Reserved? &&
            r.worker == s.worker && r.results == s.results
  {
  }

  lemma BeginSystem(s: C.Sys)
    requires C.Inv(s) && C.Enabled(s, C.BeginWrite)
    ensures s.ctl.current.value.detected <= s.ctl.current.value.end
    ensures var r := C.Apply(s, C.BeginWrite);
            r.ctl.writing && r.ctl.writingEnd == Spec.Chosen(s.ctl).end && r.ctl.lastSavedEnd == s.ctl.lastSavedEnd &&
            r.ctl.saved == s.ctl.saved && r.ctl.failures == s.ctl.failures && |r.begun| == |s.begun| + 1 &&
            r.begun[..|s.begun|] == s.begun && r.begun[|s.begun|].incident == Spec.Chosen(s.ctl) &&
            r.begun[|s.begun|].savedEnd == s.ctl.lastSavedEnd
  {
    C.ChosenGood(s);
    hide C.Inv, Spec.Chosen, Spec.WindowStart;
  }

  lemma SameCounts(x: Daemon, y: Daemon)
    requires Counted(x) && y.done == x.done && y.sys.ctl.lastSavedEnd == x.sys.ctl.lastSavedEnd
    requires y.sys.ctl.saved == x.sys.ctl.saved && y.sys.ctl.failures == x.sys.ctl.failures
    ensures Counted(y)
  {
  }

  lemma BegunOrder(x: Daemon, y: Daemon)
    requires Counted(x) && InOrder(x) && y.done == x.done && |y.sys.begun| == |x.sys.begun| + 1
    requires y.sys.begun[..|x.sys.begun|] == x.sys.begun
    requires y.sys.begun[|x.sys.begun|].savedEnd == x.sys.ctl.lastSavedEnd
    ensures InOrder(y)
  {
    forall i, j | 0 <= i < j < |y.sys.begun| && i < |y.done| && Published(y.done[i])
      ensures y.done[i].end <= y.sys.begun[j].savedEnd
    {
      if j < |x.sys.begun| {
        assert y.sys.begun[j] == x.sys.begun[j];
      } else {
        assert y.done[i] in x.done;
      }
    }
    forall i | 0 <= i < |y.done| ensures y.done[i].end == y.sys.begun[i].incident.end {
      assert y.sys.begun[i] == x.sys.begun[i];
    }
  }

  lemma SaveHolds(x: Daemon, steps: seq<T.Step>, links: seq<T.File>, r: T.SaveResult, l: T.Limits)
    requires Inv(x, l) && Enabled(x, Save(steps, links, r), l)
    ensures Inv(Apply(x, Save(steps, links, r), l), l)
  {
    Flowing(x, l);
    L.StepHolds(x.lease, L.WorkerRelease);
    T.QuotaOverRuns(x.content, steps, l);
    SavedOnce(steps, links, r);
    var y := Apply(x, Save(steps, links, r), l);
    hide C.Inv, L.Inv, T.AtMost, T.Returns, Counted, InOrder;
    SameReports(x, y);
  }

  lemma SavedOnce(steps: seq<T.Step>, links: seq<T.File>, r: T.SaveResult)
    requires T.Returns(steps, links, r)
    ensures |links| <= 1 && (!r.Unpublished? ==> |links| == 1)
  {
  }

  lemma FinishedHolds(x: Daemon, step: L.Step, r: Report, l: T.Limits)
    requires Inv(x, l) && x.sys.ctl.writing && Sound(r) && r.end == x.job
    requires Delivers(x.lease, step) || (step.Discard? && L.Enabled(x.lease, step))
    ensures Inv(Finished(x, step, r), l)
    ensures Finished(x, step, r).sys.ctl.lastSavedEnd == if Published(r) then r.end else x.sys.ctl.lastSavedEnd
  {
    hide C.Inv, L.Inv, L.Apply, T.AtMost;
    Flowing(x, l);
    var a := C.FinishWrite(Published(r), !r.result.Saved?);
    C.ApplyHolds(x.sys, a);
    L.StepHolds(x.lease, step);
    FinishedLease(x.lease, step);
    BoundaryWithin(x.sys);
    var y := Finished(x, step, r);
    assert y.done[..|x.done|] == x.done;
    FinishedCounts(x, y, r);
    FinishedOrder(x, y, r);
  }

  lemma BoundaryWithin(s: C.Sys)
    requires C.Inv(s) && s.ctl.writing
    ensures s.ctl.lastSavedEnd <= s.ctl.writingEnd
  {
  }

  lemma FinishedLease(s: L.State, step: L.Step)
    requires L.Inv(s) && (Delivers(s, step) || (step.Discard? && L.Enabled(s, step)))
    ensures var r := L.Apply(s, step);
            !r.writing && r.begun == s.begun && r.finished == s.finished + 1 && !r.main.Reserved? &&
            !r.worker.Sending? && r.results == 0
  {
    hide L.OneLive;
  }

  lemma FinishedCounts(x: Daemon, y: Daemon, r: Report)
    requires Counted(x) && Sound(r) && r.end == x.sys.ctl.writingEnd && y.done == x.done + [r]
    requires x.sys.ctl.lastSavedEnd <= x.sys.ctl.writingEnd
    requires y.sys.ctl == Spec.Finish(x.sys.ctl, Published(r), !r.result.Saved?)
    ensures Counted(y)
  {
    assert y.done[..|x.done|] == x.done;
    forall q | q in y.done ensures Sound(q) && (Published(q) ==> q.end <= y.sys.ctl.lastSavedEnd) {
      assert q in x.done || q == r;
    }
  }

  lemma FinishedOrder(x: Daemon, y: Daemon, r: Report)
    requires InOrder(x) && y.sys.begun == x.sys.begun && y.done == x.done + [r]
    requires |x.sys.begun| == |x.done| + 1 && r.end == x.sys.begun[|x.done|].incident.end
    ensures InOrder(y)
  {
    forall i, j | 0 <= i < j < |y.sys.begun| && i < |y.done| && Published(y.done[i])
      ensures y.done[i].end <= y.sys.begun[j].savedEnd
    {
      assert y.done[i] == x.done[i];
    }
  }

  lemma TurnHolds(x: Daemon, turn: Turn, l: T.Limits)
    requires Inv(x, l) && Enabled(x, turn, l)
    ensures Inv(Apply(x, turn, l), l)
  {
    match turn
    case Control(a) => ControlHolds(x, a, l);
    case Party(step) => PartyHolds(x, step, l);
    case Begin(another) => BeginHolds(x, another, l);
    case Save(steps, links, r) => SaveHolds(x, steps, links, r, l);
    case Deliver(step) => FinishedHolds(x, step, x.saved.value, l);
    case Discard => FinishedHolds(x, L.Discard, Report(T.Unpublished, [], x.job), l);
    case Vanish(f) => T.SetTotalSubset(x.content - {f}, x.content);
  }

  // ----- runs -----

  function Start(config: Spec.Config, sensors: seq<string>, now: nat, content: set<T.File>): (x: Daemon)
    requires C.Sound(config)
    ensures C.Inv(x.sys)
  {
    Daemon(C.Start(config, sensors, now), L.Start(), content, 0, None, [])
  }

  lemma StartHolds(config: Spec.Config, sensors: seq<string>, now: nat, content: set<T.File>, l: T.Limits)
    requires C.Sound(config) && T.AtMost(content, l.maxFiles + 1, l.maxStorage + l.maxFile)
    ensures Inv(Start(config, sensors, now, content), l)
  {
    hide C.Inv, L.Inv, T.AtMost;
    L.StartHolds();
  }

  predicate Possible(x: Daemon, turns: seq<Turn>, l: T.Limits)
    requires C.Inv(x.sys)
    decreases |turns|
  {
    |turns| == 0 ||
    (Enabled(x, turns[0], l) && (ApplySound(x, turns[0], l); Possible(Apply(x, turns[0], l), turns[1..], l)))
  }

  lemma ApplySound(x: Daemon, turn: Turn, l: T.Limits)
    requires C.Inv(x.sys) && Enabled(x, turn, l)
    ensures C.Inv(Apply(x, turn, l).sys)
  {
    hide C.Inv, C.Apply, L.Apply;
    match turn
    case Control(a) => C.ApplyHolds(x.sys, a);
    case Begin(_) => C.ApplyHolds(x.sys, C.BeginWrite);
    case Deliver(_) =>
      var r := x.saved.value;
      C.ApplyHolds(x.sys, C.FinishWrite(Published(r), !r.result.Saved?));
    case Discard => C.ApplyHolds(x.sys, C.FinishWrite(false, true));
    case _ =>
  }

  function After(x: Daemon, turns: seq<Turn>, l: T.Limits): (r: Daemon)
    requires C.Inv(x.sys) && Possible(x, turns, l)
    ensures C.Inv(r.sys)
    decreases |turns|
  {
    if |turns| == 0 then x
    else
      ApplySound(x, turns[0], l);
      After(Apply(x, turns[0], l), turns[1..], l)
  }

  lemma {:induction false} RunHolds(x: Daemon, turns: seq<Turn>, l: T.Limits)
    requires Inv(x, l) && Possible(x, turns, l)
    ensures Inv(After(x, turns, l), l)
    decreases |turns|
  {
    SystemSound(x, l);
    hide Inv, C.Inv, Apply, Enabled;
    if |turns| > 0 {
      TurnHolds(x, turns[0], l);
      RunHolds(Apply(x, turns[0], l), turns[1..], l);
    }
  }

  lemma SystemSound(x: Daemon, l: T.Limits)
    requires Inv(x, l)
    ensures C.Inv(x.sys)
  {
  }

  lemma Reported(x: Daemon, l: T.Limits)
    requires Inv(x, l)
    ensures var c := x.sys.ctl;
            c.lastSavedEnd == Boundary(x.done) && c.saved == Paths(x.done) && c.failures == Errors(x.done) &&
            |x.sys.begun| == |x.done| + L.One(c.writing) && InOrder(x) &&
            T.AtMost(x.content, l.maxFiles + 1, l.maxStorage + l.maxFile)
  {
    Flowing(x, l);
    hide C.Inv, L.Inv, T.AtMost;
  }

  /** Over any interleaving of polls, clients, writer, shutdown, failing saves and outside removals:
      the controller's boundary is the end of the last window whose save returned a path, its
      counters are those of the saves, each incident handed over is reported once and in order, and
      the directory stays within one capture of its quota. */
  lemma BoundaryFollowsPaths(config: Spec.Config, sensors: seq<string>, now: nat, content: set<T.File>, l: T.Limits,
                             turns: seq<Turn>)
    requires C.Sound(config) && T.AtMost(content, l.maxFiles + 1, l.maxStorage + l.maxFile)
    requires Possible(Start(config, sensors, now, content), turns, l)
    ensures var x := After(Start(config, sensors, now, content), turns, l);
            var c := x.sys.ctl;
            c.lastSavedEnd == Boundary(x.done) && c.saved == Paths(x.done) && c.failures == Errors(x.done) &&
            |x.sys.begun| == |x.done| + L.One(c.writing) &&
            InOrder(x) && T.AtMost(x.content, l.maxFiles + 1, l.maxStorage + l.maxFile)
  {
    hide *;
    StartHolds(config, sensors, now, content, l);
    RunHolds(Start(config, sensors, now, content), turns, l);
    Reported(After(Start(config, sensors, now, content), turns, l), l);
  }

  /** Over any such run a later window repeats no more of a file whose path was returned than the
      one poll interval at which its own incident was detected. */
  lemma PublishedFilesDoNotRepeat(config: Spec.Config, sensors: seq<string>, now: nat, content: set<T.File>,
                                  l: T.Limits, turns: seq<Turn>, i: nat, j: nat)
    requires C.Sound(config) && T.AtMost(content, l.maxFiles + 1, l.maxStorage + l.maxFile)
    requires Possible(Start(config, sensors, now, content), turns, l)
    requires var x := After(Start(config, sensors, now, content), turns, l);
             i < j < |x.sys.begun| && i < |x.done| && Published(x.done[i])
    ensures var x := After(Start(config, sensors, now, content), turns, l);
            var file, w := x.done[i], x.sys.begun[j];
            file.end <= w.start || (w.start == w.prior && w.incident.detected == w.savedEnd)
  {
    hide *;
    StartHolds(config, sensors, now, content, l);
    RunHolds(Start(config, sensors, now, content), turns, l);
    LaterWindow(After(Start(config, sensors, now, content), turns, l), i, j, l);
  }

  lemma LaterWindow(x: Daemon, i: nat, j: nat, l: T.Limits)
    requires Inv(x, l) && i < j < |x.sys.begun| && i < |x.done| && Published(x.done[i])
    ensures var file, w := x.done[i], x.sys.begun[j];
            file.end <= w.start || (w.start == w.prior && w.incident.detected == w.savedEnd)
  {
    hide C.Mid, C.Counted, L.Inv, T.AtMost;
    var w := x.sys.begun[j];
    assert w in x.sys.begun && C.Good(w);
  }

  /** When a result reaches the loop, the boundary moves to the window's end exactly when the save
      returned a path. */
  lemma DeliveryMovesBoundary(x: Daemon, step: L.Step, l: T.Limits)
    requires Inv(x, l) && Enabled(x, Deliver(step), l)
    ensures x.sys.ctl.lastSavedEnd <= x.job
    ensures Apply(x, Deliver(step), l).sys.ctl.lastSavedEnd ==
              if Published(x.saved.value) then x.job else x.sys.ctl.lastSavedEnd
  {
    Flowing(x, l);
    BoundaryWithin(x.sys);
    FinishedHolds(x, step, x.saved.value, l);
  }

  /** A result waits while neither it is delivered nor its file removed. */
  ghost predicate Waits(x: Daemon, r: Report, f: T.File, boundary: nat, failures: nat, l: T.Limits) {
    Inv(x, l) && x.saved == Some(r) && f in x.content && x.sys.ctl.lastSavedEnd == boundary &&
    x.sys.ctl.failures == failures
  }

  /** While a result waits no other save and no other incident begins. */
  lemma WaitingTurn(x: Daemon, turn: Turn, r: Report, f: T.File, boundary: nat, failures: nat, l: T.Limits)
    requires Waits(x, r, f, boundary, failures, l) && C.Inv(x.sys) && Enabled(x, turn, l)
    requires !turn.Deliver? && !turn.Discard? && turn != Vanish(f)
    ensures Waits(Apply(x, turn, l), r, f, boundary, failures, l)
  {
    Flowing(x, l);
    TurnHolds(x, turn, l);
    if turn.Control? {
      ControlSame(x.sys, turn.act);
    }
    hide Inv, C.Inv, L.Inv, C.Apply, L.Apply, L.Enabled;
  }

  lemma {:induction false} WaitingRun(x: Daemon, turns: seq<Turn>, r: Report, f: T.File, boundary: nat, failures: nat,
                                      l: T.Limits)
    requires Waits(x, r, f, boundary, failures, l) && C.Inv(x.sys) && Possible(x, turns, l)
    requires forall turn :: turn in turns ==> !turn.Deliver? && !turn.Discard? && turn != Vanish(f)
    ensures Waits(After(x, turns, l), r, f, boundary, failures, l)
    decreases |turns|
  {
    hide Waits, C.Inv, Apply, Enabled;
    if |turns| > 0 {
      assert turns[0] in turns;
      WaitingTurn(x, turns[0], r, f, boundary, failures, l);
      ApplySound(x, turns[0], l);
      WaitingRun(Apply(x, turns[0], l), turns[1..], r, f, boundary, failures, l);
    }
  }

  /** A link whose name could not be made durable: the save leaves the file behind, and whatever
      happens until its result is delivered, other than someone removing the file, the boundary
      then stays where it was and the failure is counted: the next window may repeat the file. */
  lemma UnconfirmedLinkIsForgotten(x: Daemon, steps: seq<T.Step>, f: T.File, turns: seq<Turn>, step: L.Step,
                                   l: T.Limits)
    requires Inv(x, l) && Enabled(x, Save(steps, [f], T.Unpublished), l) && T.Vanish(f) !in steps
    requires var y := Apply(x, Save(steps, [f], T.Unpublished), l);
             Possible(y, turns, l) && Enabled(After(y, turns, l), Deliver(step), l)
    requires forall turn :: turn in turns ==> !turn.Deliver? && !turn.Discard? && turn != Vanish(f)
    ensures var z := After(Apply(x, Save(steps, [f], T.Unpublished), l), turns, l);
            var after := Apply(z, Deliver(step), l);
            f in after.content && after.sys.ctl.lastSavedEnd == x.sys.ctl.lastSavedEnd &&
            after.sys.ctl.failures == x.sys.ctl.failures + 1
  {
    SystemSound(x, l);
    hide *;
    var y, r := Apply(x, Save(steps, [f], T.Unpublished), l), Report(T.Unpublished, [f], x.job);
    SavedWaits(x, steps, f, l);
    WaitingRun(y, turns, r, f, x.sys.ctl.lastSavedEnd, x.sys.ctl.failures, l);
    WaitingDelivered(After(y, turns, l), step, r, f, x.sys.ctl.lastSavedEnd, x.sys.ctl.failures, l);
  }

  lemma SavedWaits(x: Daemon, steps: seq<T.Step>, f: T.File, l: T.Limits)
    requires Inv(x, l) && Enabled(x, Save(steps, [f], T.Unpublished), l) && T.Vanish(f) !in steps
    ensures Waits(Apply(x, Save(steps, [f], T.Unpublished), l), Report(T.Unpublished, [f], x.job), f,
                  x.sys.ctl.lastSavedEnd, x.sys.ctl.failures, l)
  {
    SaveHolds(x, steps, [f], T.Unpublished, l);
    Linking(steps, f);
    T.LinkedStays(T.State(x.content, T.Off), steps, f, l);
    hide Inv, T.Returns, T.Possible, T.After, L.Apply, T.OneSave;
  }

  lemma WaitingDelivered(x: Daemon, step: L.Step, r: Report, f: T.File, boundary: nat, failures: nat, l: T.Limits)
    requires Waits(x, r, f, boundary, failures, l) && r.result.Unpublished?
    requires C.Inv(x.sys) && Enabled(x, Deliver(step), l)
    ensures var y := Apply(x, Deliver(step), l);
            f in y.content && y.sys.ctl.lastSavedEnd == boundary && y.sys.ctl.failures == failures + 1
  {
    DeliveryMovesBoundary(x, step, l);
    hide Inv, C.Inv, L.Apply;
  }

  lemma Linking(steps: seq<T.Step>, f: T.File)
    requires T.Returns(steps, [f], T.Unpublished)
    ensures T.OneSave(steps, [f])
  {
  }
}
