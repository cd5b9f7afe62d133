/** The snapshot lease and the automatic writer: the recorder loop, the background worker,
    manual clients, cancellation and shutdown as interleaved steps. */
module Lease {

  /** Where the recorder loop is. A number names a lease ever granted. */
  datatype Main =
    | Loop
    | Reserved(lease: nat)     // progress took the lease
    | Handing(lease: nat)      // the incident has begun; the job is about to be sent
    | Replying(lease: nat)     // a capture waits for its client
    | Refusing                 // a reply that carries no lease
    | AwaitWorker              // close: cancelled, waiting for the worker to exit
    | TakeJob
    | Discarding(lease: nat)   // close took a job the worker never received
    | TakeResult
    | Closed

  datatype Worker =
    | Idle
    | Saving(lease: nat)
    | Sending
    | Exited

  /** `granted` leases were ever handed out; the release closures of those in `live` are unspent. */
  datatype State = State(busy: bool, granted: nat, live: set<nat>, main: Main, worker: Worker,
                         jobs: seq<nat>, results: nat, cancelled: bool, pending: bool,
                         writing: bool, begun: nat, finished: nat, clients: set<nat>)

  datatype Step =
    | Trigger | Reserve | BeginIncident(another: bool) | Hand
    | ReserveManual | Refuse | Deliver | Abandon | AnswerRefusal
    | ClientRelease(lease: nat)
    | WorkerTake | WorkerStop | WorkerRelease | WorkerSend
    | Collect
    | CancelParent | StartClose | Joined | DrainJob | Discard | DrainResult

  function Start(): State {
    State(false, 0, {}, Loop, Idle, [], 0, false, false, false, 0, 0, {})
  }

  /** A release closure acts once: a second call finds it spent. */
  function Release(s: State, lease: nat): State {
    if lease in s.live then s.(live := s.live - {lease}, busy := false) else s
  }

  /** A successful compare-and-swap grants a lease with a release closure of its own. */
  function Grant(s: State): State {
    s.(busy := true, live := s.live + {s.granted}, granted := s.granted + 1)
  }

  function FinishIncident(s: State): State {
    s.(writing := false, finished := s.finished + 1)
  }

  predicate Enabled(s: State, step: Step) {
    match step
    case Trigger => s.main.Loop?
    case Reserve => s.main.Loop? && s.pending && !s.writing && !s.busy
    case BeginIncident(_) => s.main.Reserved?
    case Hand => s.main.Handing? && |s.jobs| < 1
    case ReserveManual => s.main.Loop? && !s.busy
    case Refuse => s.main.Loop?
    case Deliver => s.main.Replying?
    case Abandon => s.main.Replying?
    case AnswerRefusal => s.main.Refusing?
    case ClientRelease(l) => l in s.clients
    case WorkerTake => s.worker.Idle? && |s.jobs| > 0
    case WorkerStop => s.worker.Idle? && s.cancelled
    case WorkerRelease => s.worker.Saving?
    case WorkerSend => s.worker.Sending? && s.results < 1
    case Collect => s.main.Loop? && s.results > 0
    case CancelParent => true
    case StartClose => s.main.Loop?
    case Joined => s.main.AwaitWorker? && s.worker.Exited?
    case DrainJob => s.main.TakeJob?
    case Discard => s.main.Discarding?
    case DrainResult => s.main.TakeResult?
  }

  function Apply(s: State, step: Step): State
    requires Enabled(s, step)
  {
    match step
    case Trigger => s.(pending := true)
    case Reserve => Grant(s).(main := Reserved(s.granted))
    case BeginIncident(another) =>
      s.(main := Handing(s.main.lease), writing := true, begun := s.begun + 1, pending := another)
    case Hand => s.(jobs := s.jobs + [s.main.lease], main := Loop)
    case ReserveManual => Grant(s).(main := Replying(s.granted))
    case Refuse => s.(main := Refusing)
    case Deliver => s.(clients := s.clients + {s.main.lease}, main := Loop)
    case Abandon => Release(s, s.main.lease).(main := Loop)
    case AnswerRefusal => s.(main := Loop)
    case ClientRelease(l) => Release(s, l)
    case WorkerTake => s.(worker := Saving(s.jobs[0]), jobs := s.jobs[1..])
    case WorkerStop => s.(worker := Exited)
    case WorkerRelease => Release(s, s.worker.lease).(worker := Sending)
    case WorkerSend => s.(results := s.results + 1, worker := Idle)
    case Collect => FinishIncident(s).(results := s.results - 1)
    case CancelParent => s.(cancelled := true)
    case StartClose => s.(cancelled := true, main := AwaitWorker)
    case Joined => s.(main := TakeJob)
    case DrainJob =>
      if |s.jobs| > 0 then s.(main := Discarding(s.jobs[0]), jobs := s.jobs[1..]) else s.(main := TakeResult)
    case Discard => FinishIncident(Release(s, s.main.lease)).(main := TakeResult)
    case DrainResult =>
      if s.results > 0 then FinishIncident(s).(results := s.results - 1, main := Closed) else s.(main := Closed)
  }

  // ----- the invariant -----

  function MainLease(m: Main): seq<nat> {
    if m.Reserved? || m.Handing? || m.Replying? || m.Discarding? then [m.lease] else []
  }

  function WorkerLease(w: Worker): seq<nat> {
    if w.Saving? then [w.lease] else []
  }

  /** The leases held inside the daemon: by the loop, in the queue, by the worker. */
  function Held(s: State): seq<nat> {
    MainLease(s.main) + s.jobs + WorkerLease(s.worker)
  }

  function One(b: bool): nat {
    if b then 1 else 0
  }

  /** Incidents between their begin and their finish, wherever they are. */
  function InFlight(s: State): nat {
    One(s.main.Handing?) + |s.jobs| + One(s.worker.Saving? || s.worker.Sending?) + s.results +
    One(s.main.Discarding?)
  }

  /** The live lease is the one held inside the daemon, or else belongs to one client. */
  predicate OneLive(s: State) {
    (s.busy <==> s.live != {}) &&
    (forall l :: l in s.clients ==> l < s.granted) && (forall l :: l in s.live ==> l < s.granted) &&
    |Held(s)| <= 1 &&
    if |Held(s)| == 1 then s.live == {Held(s)[0]} && Held(s)[0] !in s.clients
    else s.live <= s.clients && forall i, j :: i in s.live && j in s.live ==> i == j
  }

  predicate Flow(s: State) {
    InFlight(s) == One(s.writing) && s.begun == s.finished + One(s.writing) && (s.main.Reserved? ==> !s.writing)
  }

  predicate Closing(s: State) {
    (s.main.AwaitWorker? ==> s.cancelled) &&
    (s.main.TakeJob? || s.main.Discarding? || s.main.TakeResult? || s.main.Closed? ==> s.worker.Exited?) &&
    (s.main.TakeResult? || s.main.Closed? ==> s.jobs == []) &&
    (s.main.Closed? ==> s.results == 0)
  }

  predicate Inv(s: State) {
    OneLive(s) && Flow(s) && Closing(s)
  }

  /** Moving a lease between the loop, the queue and the worker changes no holder. */
  lemma MoveLive(s: State, r: State)
    requires OneLive(s) && Held(r) == Held(s)
    requires r.live == s.live && r.busy == s.busy && r.clients == s.clients && r.granted == s.granted
    ensures OneLive(r)
  {
  }

  lemma GrantLive(s: State, main: Main)
    requires OneLive(s) && s.main.Loop? && !s.busy
    requires main == Replying(s.granted) || main == Reserved(s.granted)
    ensures OneLive(Grant(s).(main := main))
  {
    assert Held(Grant(s).(main := main)) == [s.granted] + Held(s);
  }

  /** Releasing the lease held inside the daemon frees the gate. */
  lemma ReleaseLive(s: State, lease: nat, r: State)
    requires OneLive(s) && Held(s) == [lease] && Held(r) == []
    requires r.live == s.live - {lease} && !r.busy && r.clients == s.clients && r.granted == s.granted
    ensures OneLive(r)
  {
  }

  lemma ClientReleaseLive(s: State, lease: nat)
    requires OneLive(s) && lease in s.clients
    ensures OneLive(Release(s, lease))
  {
    assert Held(Release(s, lease)) == Held(s);
  }

  lemma DeliverLive(s: State)
    requires OneLive(s) && s.main.Replying?
    ensures OneLive(s.(clients := s.clients + {s.main.lease}, main := Loop))
  {
    assert Held(s) == [s.main.lease] + s.jobs + WorkerLease(s.worker);
    assert Held(s)[0] == s.main.lease;
    assert Held(s.(clients := s.clients + {s.main.lease}, main := Loop)) == [];
  }

  lemma LoopStepHolds(s: State, step: Step)
    requires Inv(s) && Enabled(s, step) && s.main.Loop?
    requires step.Trigger? || step.Reserve? || step.ReserveManual? || step.Refuse? || step.Collect? || step.StartClose?
    ensures Inv(Apply(s, step))
  {
    hide OneLive, Flow, Closing, Apply, Enabled;
    LoopStepLive(s, step);
    LoopStepFlow(s, step);
  }

  lemma LoopStepLive(s: State, step: Step)
    requires OneLive(s) && Enabled(s, step) && s.main.Loop?
    requires step.Trigger? || step.Reserve? || step.ReserveManual? || step.Refuse? || step.Collect? || step.StartClose?
    ensures OneLive(Apply(s, step))
  {
    hide OneLive;
    if step.Reserve? {
      GrantLive(s, Reserved(s.granted));
    } else if step.ReserveManual? {
      GrantLive(s, Replying(s.granted));
    } else {
      MoveLive(s, Apply(s, step));
    }
  }

  lemma LoopStepFlow(s: State, step: Step)
    requires Flow(s) && Closing(s) && Enabled(s, step) && s.main.Loop?
    requires step.Trigger? || step.Reserve? || step.ReserveManual? || step.Refuse? || step.Collect? || step.StartClose?
    ensures Flow(Apply(s, step)) && Closing(Apply(s, step))
  {
  }

  lemma ReplyStepHolds(s: State, step: Step)
    requires Inv(s) && Enabled(s, step)
    requires step.BeginIncident? || step.Hand? || step.Deliver? || step.Abandon? || step.AnswerRefusal?
    ensures Inv(Apply(s, step))
  {
    if step.Deliver? {
      DeliverLive(s);
    } else if step.Abandon? {
      assert Held(s)[0] == s.main.lease;
      assert Held(s) == [s.main.lease];
      ReleaseLive(s, s.main.lease, Apply(s, step));
    } else {
      hide OneLive;
      MoveLive(s, Apply(s, step));
    }
  }

  lemma WorkerReleaseHolds(s: State)
    requires Inv(s) && s.worker.Saving?
    ensures Inv(Apply(s, WorkerRelease))
  {
    assert Held(s)[|Held(s)| - 1] == s.worker.lease;
    assert Held(s) == [s.worker.lease];
    ReleaseLive(s, s.worker.lease, Apply(s, WorkerRelease));
  }

  lemma WorkerTakeHolds(s: State)
    requires Inv(s) && Enabled(s, WorkerTake)
    ensures Inv(Apply(s, WorkerTake))
  {
    hide OneLive;
    assert Held(Apply(s, WorkerTake)) == Held(s);
    MoveLive(s, Apply(s, WorkerTake));
  }

  lemma WorkerSendHolds(s: State)
    requires Inv(s) && Enabled(s, WorkerSend)
    ensures Inv(Apply(s, WorkerSend))
  {
    hide OneLive;
    MoveLive(s, Apply(s, WorkerSend));
  }

  lemma StopHolds(s: State, step: Step)
    requires Inv(s) && Enabled(s, step) && (step.WorkerStop? || step.CancelParent?)
    ensures Inv(Apply(s, step))
  {
    hide OneLive;
    if step.WorkerStop? {
      assert WorkerLease(Exited) == WorkerLease(s.worker);
      MoveLive(s, s.(worker := Exited));
    } else {
      MoveLive(s, s.(cancelled := true));
    }
  }

  lemma ClientReleaseHolds(s: State, lease: nat)
    requires Inv(s) && lease in s.clients
    ensures Inv(Apply(s, ClientRelease(lease)))
  {
    hide OneLive;
    ClientReleaseLive(s, lease);
  }

  lemma DiscardHolds(s: State)
    requires Inv(s) && s.main.Discarding?
    ensures Inv(Apply(s, Discard))
  {
    assert Held(s)[0] == s.main.lease;
    assert Held(s) == [s.main.lease];
    ReleaseLive(s, s.main.lease, Apply(s, Discard));
  }

  lemma DrainJobHolds(s: State)
    requires Inv(s) && s.main.TakeJob?
    ensures Inv(Apply(s, DrainJob))
  {
    hide OneLive;
    if |s.jobs| > 0 {
      assert s.jobs == [s.jobs[0]] + s.jobs[1..];
    }
    MoveLive(s, Apply(s, DrainJob));
  }

  lemma CloseStepHolds(s: State, step: Step)
    requires Inv(s) && Enabled(s, step) && (step.Joined? || step.DrainResult?)
    ensures Inv(Apply(s, step))
  {
    hide OneLive;
    if step.Joined? {
      MoveLive(s, s.(main := TakeJob));
    } else {
      MoveLive(s, Apply(s, step));
    }
  }

  /** Every step of every participant keeps the invariant. */
  lemma StepHolds(s: State, step: Step)
    requires Inv(s) && Enabled(s, step)
    ensures Inv(Apply(s, step))
  {
    hide Inv, Apply;
    match step
    case Trigger => LoopStepHolds(s, step);
    case Reserve => LoopStepHolds(s, step);
    case ReserveManual => LoopStepHolds(s, step);
    case Refuse => LoopStepHolds(s, step);
    case Collect => LoopStepHolds(s, step);
    case StartClose => LoopStepHolds(s, step);
    case BeginIncident(_) => ReplyStepHolds(s, step);
    case Hand => ReplyStepHolds(s, step);
    case Deliver => ReplyStepHolds(s, step);
    case Abandon => ReplyStepHolds(s, step);
    case AnswerRefusal => ReplyStepHolds(s, step);
    case Joined => CloseStepHolds(s, step);
    case DrainJob => DrainJobHolds(s);
    case Discard => DiscardHolds(s);
    case DrainResult => CloseStepHolds(s, step);
    case WorkerTake => WorkerTakeHolds(s);
    case WorkerRelease => WorkerReleaseHolds(s);
    case ClientRelease(lease) => ClientReleaseHolds(s, lease);
    case WorkerSend => WorkerSendHolds(s);
    case WorkerStop => StopHolds(s, step);
    case CancelParent => StopHolds(s, step);
  }

  // ----- what every interleaving guarantees -----

  predicate Possible(s: State, steps: seq<Step>)
    decreases |steps|
  {
    |steps| == 0 || (Enabled(s, steps[0]) && Possible(Apply(s, steps[0]), steps[1..]))
  }

  function After(s: State, steps: seq<Step>): State
    requires Possible(s, steps)
    decreases |steps|
  {
    if |steps| == 0 then s else After(Apply(s, steps[0]), steps[1..])
  }

  lemma {:induction false} RunHolds(s: State, steps: seq<Step>)
    requires Inv(s) && Possible(s, steps)
    ensures Inv(After(s, steps))
    decreases |steps|
  {
    if |steps| > 0 {
      StepHolds(s, steps[0]);
      RunHolds(Apply(s, steps[0]), steps[1..]);
    }
  }

  lemma StartHolds()
    ensures Inv(Start())
  {
    hide Inv, OneLive, Flow, Closing;
    FreeLive(Start());
    FreeFlow(Start());
    Whole(Start());
  }

  lemma FreeFlow(s: State)
    requires s.main.Loop? && s.worker.Idle? && |s.jobs| == 0 && s.results == 0
    requires !s.writing && s.begun == 0 && s.finished == 0
    ensures Flow(s) && Closing(s)
  {
  }

  lemma Whole(s: State)
    requires OneLive(s) && Flow(s) && Closing(s)
    ensures Inv(s)
  {
  }

  lemma FreeLive(s: State)
    requires s.main.Loop? && s.worker.Idle? && |s.jobs| == 0
    requires s.live == {} && s.clients == {} && !s.busy
    ensures OneLive(s)
  {
  }

  /** The invariant holds in every reachable state. */
  lemma Reachable(steps: seq<Step>)
    requires Possible(Start(), steps)
    ensures Inv(After(Start(), steps))
  {
    StartHolds();
    hide Inv, Possible, After;
    RunHolds(Start(), steps);
  }

  /** The clients whose lease has not been released. */
  function LiveClients(s: State): set<nat> {
    s.clients * s.live
  }

  /** Over every interleaving at most one party holds the lease, and the gate is closed
      exactly while one does. */
  lemma OneHolder(steps: seq<Step>)
    requires Possible(Start(), steps)
    ensures var s := After(Start(), steps);
            |Held(s)| + |LiveClients(s)| <= 1 && (s.busy <==> |Held(s)| + |LiveClients(s)| == 1)
  {
    Reachable(steps);
    hide After, Possible, Held, LiveClients;
    CountLive(After(Start(), steps));
  }

  lemma CountLive(s: State)
    requires OneLive(s)
    ensures |Held(s)| + |LiveClients(s)| <= 1 && (s.busy <==> |Held(s)| + |LiveClients(s)| == 1)
  {
    if |Held(s)| == 1 {
      assert LiveClients(s) == {};
    } else if s.live != {} {
      var l :| l in s.live;
      assert LiveClients(s) == {l};
    } else {
      assert LiveClients(s) == {};
    }
  }

  /** A client releasing again, or late, changes nothing for any other holder. */
  lemma StaleReleaseIsHarmless(steps: seq<Step>, lease: nat)
    requires Possible(Start(), steps) && lease in After(Start(), steps).clients
    ensures var s := After(Start(), steps);
            (|Held(s)| > 0 ==> Release(s, lease) == s) &&
            (forall other :: other in LiveClients(s) && other != lease ==> Release(s, lease) == s)
  {
    Reachable(steps);
    hide After, Possible;
    var s := After(Start(), steps);
    assert OneLive(s);
  }

  /** Neither channel send ever blocks, one incident is in flight exactly while the controller
      is writing, and every begin has been finished once or is the one in flight. */
  lemma SendsNeverBlock(steps: seq<Step>)
    requires Possible(Start(), steps)
    ensures var s := After(Start(), steps);
            (s.main.Handing? ==> Enabled(s, Hand)) &&
            (s.worker.Sending? ==> Enabled(s, WorkerSend)) &&
            InFlight(s) == One(s.writing) && s.begun == s.finished + One(s.writing)
  {
    Reachable(steps);
    hide After, Possible;
    FlowOf(After(Start(), steps));
  }

  lemma FlowOf(s: State)
    requires Flow(s)
    ensures s.main.Handing? ==> |s.jobs| == 0
    ensures s.worker.Sending? ==> s.results == 0
  {
  }

  /** After shutdown no automatic lease, job or result remains and every begin was finished. */
  lemma ClosedIsClean(steps: seq<Step>)
    requires Possible(Start(), steps) && After(Start(), steps).main.Closed?
    ensures var s := After(Start(), steps);
            Held(s) == [] && s.jobs == [] && s.results == 0 && s.worker.Exited? && !s.writing &&
            s.begun == s.finished
  {
    Reachable(steps);
    hide After, Possible;
    var s := After(Start(), steps);
    assert Flow(s) && Closing(s);
  }

  // ----- shutdown terminates -----

  function WorkerRank(s: State): nat {
    4 * |s.jobs| + if s.worker.Saving? then 3 else if s.worker.Sending? then 2 else if s.worker.Idle? then 1 else 0
  }

  function WorkerSteps(): set<Step> {
    {WorkerTake, WorkerStop, WorkerRelease, WorkerSend}
  }

  /** While shutdown waits for the worker, the worker can always move. */
  lemma WorkerCanMove(s: State)
    requires Inv(s) && s.main.AwaitWorker?
    ensures s.worker.Exited? || exists step :: step in WorkerSteps() && Enabled(s, step)
  {
    if s.worker.Idle? {
      assert WorkerStop in WorkerSteps() && Enabled(s, WorkerStop);
    } else if s.worker.Saving? {
      assert WorkerRelease in WorkerSteps() && Enabled(s, WorkerRelease);
    } else if s.worker.Sending? {
      assert WorkerSend in WorkerSteps() && Enabled(s, WorkerSend);
    }
  }

  /** Each of its moves brings it closer to exit, and no other participant sets it back. */
  lemma ShutdownProgresses(s: State, step: Step)
    requires s.main.AwaitWorker? && Enabled(s, step)
    ensures step in WorkerSteps() ==> WorkerRank(Apply(s, step)) < WorkerRank(s) && Apply(s, step).main.AwaitWorker?
    ensures step !in WorkerSteps() ==> WorkerRank(Apply(s, step)) == WorkerRank(s)
  {
    if step.WorkerTake? {
      assert |s.jobs[1..]| == |s.jobs| - 1;
    }
  }
}
