/** A concrete run of the recorder loop in which a hand-over waits too long: by then the interval
    that triggered it has been folded into one that ends after the window. */
module MergedInterval {
  import opened Telemetry
  import opened CaptureModel
  import opened RecorderSpec
  import R = RecorderInvariant
  import S = SnapshotSpec
  import C = ControllerRuns
  import Spec = ControllerSpec
  import opened SnapshotCoverage
  import opened CaptureEvidence
  import opened AutomaticCapture
  import opened PolledCapture

  function Critical(): Metric {
    Metric(BLOCK_IO, 0, 5, Zero()[CRITICAL := 1])
  }

  function Quiet(): Metric {
    Metric(BLOCK_IO, 5, 15, Zero())
  }

  function Merged(): Metric {
    Merge(Critical(), Quiet())
  }

  /** The window ends at the poll that detected the incident; another poll and memory pressure
      come before the hand-over. */
  function Turns(): seq<Turn> {
    [Collect(5, [Critical()]), Collect(15, [Quiet()]), Observe(Tick(25)), BeginCapture]
  }

  function Settings(): Spec.Config {
    Spec.Config(10, 0, 1, 1)
  }

  function Opened(): Trigger {
    Trigger(BLOCK_IO, CRITICAL_LATENCY, 1, 1, 0, 5)
  }

  // ----- the recorder -----

  function History(bytes: int, rollup: Option<Seg>, sealed: seq<Seg>, active: Seg, evictions: nat,
                    accepted: seq<Metric>): State {
    State(0, 10, 1000, 3300, bytes, [], rollup, 0, sealed, active, 0, evictions, 0, Ledger(accepted, [], []))
  }

  function AfterFirst(): State {
    History(1416, None, [], Holding(0, 5, Critical()), 0, [Critical()])
  }

  function AfterSecond(): State {
    History(2832, None, [Holding(0, 10, Critical())], Holding(15, 15, Quiet()), 0, [Critical(), Quiet()])
  }

  function Rollup(end: nat, m: Metric): Seg {
    Seg(0, end, [], 0, [m], 4, 1408, 0, end)
  }

  function Sealed(): State {
    History(3344, None, [Holding(0, 10, Critical()), Holding(15, 25, Quiet())], Fresh(25), 0, [Critical(), Quiet()])
  }

  function HalfFolded(): State {
    History(3336, Some(Rollup(5, Critical())), [Holding(15, 25, Quiet())], Fresh(25), 1, [Critical(), Quiet()])
  }

  function Folded(): State {
    History(1920, Some(Rollup(15, Merged())), [], Fresh(25), 2, [Critical(), Quiet()])
  }

  lemma TickFive()
    ensures Buffered(New(1000, 3300, 10, 0))
    ensures Step(New(1000, 3300, 10, 0), Tick(5)) == History(512, None, [], Fresh(0).(end := 5), 0, [])
  {
  }

  lemma PollFive()
    ensures Buffered(History(512, None, [], Fresh(0).(end := 5), 0, []))
    ensures Step(History(512, None, [], Fresh(0).(end := 5), 0, []), Aggregate(Critical(), 5)) == AfterFirst()
  {
    var s := History(512, None, [], Fresh(0).(end := 5), 0, []);
    assert Advance(s, 5) == s;
  }

  lemma TickFifteen()
    ensures Buffered(AfterFirst())
    ensures Step(AfterFirst(), Tick(15))
         == History(1928, None, [Holding(0, 10, Critical())], Fresh(15), 0, [Critical()])
  {
    var s := History(1928, None, [Holding(0, 10, Critical())], Fresh(15), 0, [Critical()]);
    assert Seal(AfterFirst(), 15) == s;
    assert Expire(s, 15) == s;
  }

  lemma PollFifteen()
    ensures var s := History(1928, None, [Holding(0, 10, Critical())], Fresh(15), 0, [Critical()]);
            Buffered(s) && Step(s, Aggregate(Quiet(), 15)) == AfterSecond()
  {
    var s := History(1928, None, [Holding(0, 10, Critical())], Fresh(15), 0, [Critical()]);
    assert Seal(s, 15) == s && Expire(s, 15) == s && Advance(s, 15) == s;
  }

  lemma FoldFirst()
    ensures CompactOldest(Sealed()) == HalfFolded()
  {
    var t := OpenRollup(DropRaw(Sealed(), true), Sealed().sealed[0]);
    assert t.rollupActive == Some(NewRollup(Critical()));
    assert [Critical()][1..] == [];
    assert AddToRollup(NewRollup(Critical()), Critical()) == Rollup(5, Critical());
    assert AddAll(NewRollup(Critical()), [Critical()]) == Rollup(5, Critical());
  }

  lemma FoldSecond()
    ensures CompactOldest(HalfFolded()) == Folded()
  {
    assert [Quiet()][1..] == [];
    assert [Critical()][0 := Merged()] == [Merged()];
    assert AddToRollup(Rollup(5, Critical()), Quiet()) == Rollup(15, Merged());
    assert AddAll(Rollup(5, Critical()), [Quiet()]) == Rollup(15, Merged());
  }

  lemma TickTwentyFive()
    ensures Buffered(AfterSecond())
    ensures Step(AfterSecond(), Tick(25)) == Folded()
  {
    FoldFirst();
    FoldSecond();
    assert Seal(AfterSecond(), 25) == Sealed();
    assert Expire(Sealed(), 25) == Sealed();
    hide CompactOldest;
    assert FoldUntilFits(Folded(), 0) == Folded();
    assert FoldUntilFits(HalfFolded(), 0) == Folded();
    assert FoldUntilFits(Sealed(), 0) == Folded();
  }

  // ----- the controller -----

  /** After the poll at 5, the incident is ready; later polls only move the clock. */
  function Watching(last: nat): C.Sys {
    C.Sys(Spec.Control(Settings(), [BLOCK_IO], 1, 0, 0, 0, Some(Incident(5, 5, 10, 0, [Opened()])), None, 5, 0,
                       false, 0, 0), last, 0, 0, [])
  }

  lemma DetectFive()
    ensures C.Enabled(C.Start(Settings(), [BLOCK_IO], 0), C.Poll(5, [Critical()]))
    ensures C.Apply(C.Start(Settings(), [BLOCK_IO], 0), C.Poll(5, [Critical()])) == Watching(5)
    ensures C.Inv(Watching(5))
  {
    hide C.Inv;
    var s := C.Start(Settings(), [BLOCK_IO], 0);
    C.ApplyHolds(s, C.Poll(5, [Critical()]));
    assert [Critical()][1..] == [];
    assert Critical().tally[CRITICAL] == 1;
    assert [] + [Opened()] == [Opened()];
  }

  lemma WaitFifteen()
    requires C.Inv(Watching(5))
    ensures C.Enabled(Watching(5), C.Poll(15, [Quiet()]))
    ensures C.Apply(Watching(5), C.Poll(15, [Quiet()])) == Watching(15)
    ensures C.Inv(Watching(15)) && C.Enabled(Watching(15), C.BeginWrite)
  {
    hide C.Inv;
    C.ApplyHolds(Watching(5), C.Poll(15, [Quiet()]));
    assert [Quiet()][1..] == [];
  }

  // ----- the loop -----

  lemma OffersOne(m: Metric, t: nat)
    ensures Offers([m], t) == [Tick(t)] + [Aggregate(m, t)]
  {
  }

  lemma RecordFive()
    ensures Buffered(New(1000, 3300, 10, 0)) && Run(New(1000, 3300, 10, 0), Offers([Critical()], 5)) == AfterFirst()
  {
    hide New, AfterFirst, Step, Run, Offers, Critical;
    TickFive();
    PollFive();
    OffersOne(Critical(), 5);
    RunCons(New(1000, 3300, 10, 0), Tick(5), [Aggregate(Critical(), 5)]);
    RunOne(History(512, None, [], Fresh(0).(end := 5), 0, []), Aggregate(Critical(), 5));
  }

  lemma RecordFifteen()
    ensures Buffered(AfterFirst()) && Run(AfterFirst(), Offers([Quiet()], 15)) == AfterSecond()
  {
    hide AfterFirst, AfterSecond, Step, Run, Offers, Critical, Quiet;
    TickFifteen();
    PollFifteen();
    OffersOne(Quiet(), 15);
    RunCons(AfterFirst(), Tick(15), [Aggregate(Quiet(), 15)]);
    RunOne(History(1928, None, [Holding(0, 10, Critical())], Fresh(15), 0, [Critical()]), Aggregate(Quiet(), 15));
  }

  function One(host: Host): Engine {
    Engine(AfterFirst(), Watching(5), host, [Critical()], [])
  }

  function Two(host: Host): Engine {
    Engine(AfterSecond(), Watching(15), host, [Critical()] + [Quiet()], [])
  }

  function Waiting(host: Host): Engine {
    Engine(Folded(), Watching(15), host, [Critical()] + [Quiet()], [])
  }

  /** A turn from one sound state to another. */
  ghost predicate Leads(x: Engine, turn: Turn, y: Engine) {
    Sensible(x, 0) && AllGood(x.taken) && Buffered(x.rec) && Enabled(x, turn) && Apply(x, turn) == y &&
    Sensible(y, 0) && AllGood(y.taken)
  }

  lemma LeadsOn(x: Engine, turn: Turn, y: Engine)
    requires Leads(x, turn, y)
    ensures Sensible(x, 0) && AllGood(x.taken) && Sensible(y, 0) && AllGood(y.taken)
  {
    hide Sensible, AllGood, Buffered, Enabled, Apply;
  }

  /** A first turn, and a run from where it leads. */
  lemma FirstOf(x: Engine, turn: Turn, y: Engine, rest: seq<Turn>)
    requires Leads(x, turn, y) && Possible(y, rest, 0)
    ensures Possible(x, [turn] + rest, 0) && After(x, [turn] + rest, 0) == After(y, rest, 0)
  {
    hide Sensible, AllGood, Buffered, C.Inv, Enabled, Apply;
    assert ([turn] + rest)[1..] == rest;
  }

  lemma NoTurns(x: Engine)
    requires Sensible(x, 0) && AllGood(x.taken)
    ensures Possible(x, [], 0) && After(x, [], 0) == x
  {
  }

  /** Four turns in a row. */
  lemma FourTurns(v: Engine, a: Turn, w: Engine, b: Turn, x: Engine, c: Turn, y: Engine, d: Turn, z: Engine)
    requires Leads(v, a, w) && Leads(w, b, x) && Leads(x, c, y) && Leads(y, d, z)
    ensures Possible(v, [a, b, c, d], 0) && After(v, [a, b, c, d], 0) == z
  {
    hide *;
    LeadsOn(v, a, w);
    LeadsOn(w, b, x);
    LeadsOn(x, c, y);
    LeadsOn(y, d, z);
    assert [a, b, c, d] == [a] + ([b] + ([c] + ([d] + [])));
    NoTurns(z);
    FirstOf(y, d, z, []);
    FirstOf(x, c, y, [d] + []);
    FirstOf(w, b, x, [c] + ([d] + []));
    FirstOf(v, a, w, [b] + ([c] + ([d] + [])));
  }

  lemma FirstTurn(host: Host)
    requires ValidClock(host)
    ensures Leads(Start(1000, 3300, 10, Settings(), [BLOCK_IO], host, 0), Collect(5, [Critical()]), One(host))
  {
    hide Sensible, C.Inv, C.Enabled, C.Apply, C.Start, New, Buffered, Run, Offers, AfterFirst, Watching, Critical;
    var x := Start(1000, 3300, 10, Settings(), [BLOCK_IO], host, 0);
    DetectFive();
    RecordFive();
    Joined(x, Collect(5, [Critical()]), One(host));
  }

  lemma SecondTurn(host: Host)
    requires Sensible(One(host), 0)
    ensures Leads(One(host), Collect(15, [Quiet()]), Two(host))
  {
    hide Sensible, C.Inv, C.Enabled, C.Apply, Buffered, Run, Offers, AfterFirst, AfterSecond, Watching, Critical, Quiet;
    SystemOf(One(host));
    WaitFifteen();
    RecordFifteen();
    Joined(One(host), Collect(15, [Quiet()]), Two(host));
  }

  lemma ThirdTurn(host: Host)
    requires Sensible(Two(host), 0)
    ensures Leads(Two(host), Observe(Tick(25)), Waiting(host))
  {
    hide Sensible, C.Inv, Buffered, Step, AfterSecond, Folded, Watching, Critical, Quiet;
    SystemOf(Two(host));
    TickTwentyFive();
    Joined(Two(host), Observe(Tick(25)), Waiting(host));
  }

  lemma SystemOf(x: Engine)
    requires Sensible(x, 0)
    ensures C.Inv(x.sys) && R.Inv(x.rec)
  {
  }

  lemma Joined(x: Engine, turn: Turn, y: Engine)
    requires Sensible(x, 0) && C.Inv(x.sys) && Buffered(x.rec) && Enabled(x, turn) && Apply(x, turn) == y
    requires x.taken == []
    ensures Leads(x, turn, y)
  {
    hide Sensible, C.Inv, Buffered, Enabled, Apply;
    TurnHolds(x, turn, 0);
  }

  lemma FoldedHistory()
    ensures HasRollup(Folded()) && Retained(Folded()) == [Merged()] && S.Actual(Folded(), 0, 5) == 0
  {
    assert MetricsOf(Folded().rollups) == [] && RawMetrics(Folded()) == [];
    assert S.Boundary(Folded(), 0, 5) == 0;
  }

  lemma NothingSelected()
    ensures S.SelectMetrics([Merged()], 0, 5) == []
  {
    assert [Merged()][..0] == [];
  }

  function Handed(host: Host): Capture {
    var c := S.SnapshotWindow(Folded(), 0, 5, host);
    c.(manifest := c.manifest.(incident := Some(Incident(5, 5, 10, 0, [Opened()]))))
  }

  lemma ChosenWindow()
    requires C.Inv(Watching(15))
    ensures C.Enabled(Watching(15), C.BeginWrite)
    ensures Spec.Chosen(Watching(15).ctl) == Incident(5, 5, 10, 0, [Opened()])
    ensures Spec.WindowStart(Watching(15).ctl) == 0
  {
    hide C.Inv;
    assert [Opened()][..0] == [];
  }

  lemma HandedEmpty(host: Host)
    requires R.Inv(Folded())
    ensures Handed(host).manifest.end == 5 && PieceMetrics(Handed(host).segments) == []
  {
    hide R.Inv, Folded, Retained, S.Actual, S.Pieces, Merged;
    FoldedHistory();
    NothingSelected();
    S.SnapshotExact(Folded(), 0, 5, host);
  }

  function Done(host: Host): Engine {
    var x := Waiting(host);
    var s := Watching(15);
    Engine(x.rec, s.(ctl := s.ctl.(current := None, currentReady := 0, writing := true, writingEnd := 5), prior := 0,
                     begun := [C.Window(Incident(5, 5, 10, 0, [Opened()]), 0, 0, 0)]),
           host, x.offered, [Taken(x.rec, x.offered, Handed(host))])
  }

  lemma BeginFive()
    requires C.Inv(Watching(15))
    ensures C.Enabled(Watching(15), C.BeginWrite)
    ensures var s := Watching(15);
            C.Apply(s, C.BeginWrite) ==
              s.(ctl := s.ctl.(current := None, currentReady := 0, writing := true, writingEnd := 5), prior := 0,
                 begun := [C.Window(Incident(5, 5, 10, 0, [Opened()]), 0, 0, 0)])
  {
    hide C.Inv;
    ChosenWindow();
  }

  lemma FourthTurn(host: Host)
    requires Sensible(Waiting(host), 0)
    ensures Leads(Waiting(host), BeginCapture, Done(host))
  {
    hide Sensible, C.Inv, Buffered, C.Apply, Folded, Critical, Quiet, R.Inv, S.SnapshotWindow;
    SystemOf(Waiting(host));
    R.InvBuffers(Folded());
    ChosenWindow();
    BeginFive();
    assert Selected(Waiting(host)) == Handed(host);
    Joined(Waiting(host), BeginCapture, Done(host));
  }

  /** The capture lacks its trigger's interval, which the recorder of that moment still has. */
  ghost predicate Missed(k: Taken) {
    HasRollup(k.rec) && Retained(k.rec) == [Merged()] && Overlaps(Merged(), Opened()) &&
    k.capture.manifest.incident == Some(Incident(5, 5, 10, 0, [Opened()])) &&
    Merged().end > k.capture.manifest.end && PieceMetrics(k.capture.segments) == []
  }

  lemma DoneTaken(host: Host)
    requires R.Inv(Waiting(host).rec)
    ensures |Done(host).taken| == 1 && Missed(Done(host).taken[0])
  {
    hide R.Inv, Folded, HasRollup, Retained, S.SnapshotWindow;
    FoldedHistory();
    HandedEmpty(host);
  }

  /** A steadily polled run whose one capture misses the interval that triggered it although the
      recorder still has it: folding has merged that interval with a later one, and the result ends
      after the window. */
  lemma MergedPastTheWindow(host: Host)
    requires ValidClock(host)
    ensures var x := Start(1000, 3300, 10, Settings(), [BLOCK_IO], host, 0);
            Possible(x, Turns(), 0) && Clocked(Turns(), 0) &&
            var taken := After(x, Turns(), 0).taken; |taken| == 1 && Missed(taken[0])
  {
    hide *;
    Configured();
    var x := Start(1000, 3300, 10, Settings(), [BLOCK_IO], host, 0);
    TurnsInOrder();
    FirstTurn(host);
    LeadsOn(x, Collect(5, [Critical()]), One(host));
    SecondTurn(host);
    LeadsOn(One(host), Collect(15, [Quiet()]), Two(host));
    ThirdTurn(host);
    LeadsOn(Two(host), Observe(Tick(25)), Waiting(host));
    FourthTurn(host);
    SystemOf(Waiting(host));
    DoneTaken(host);
    FourTurns(x, Collect(5, [Critical()]), One(host), Collect(15, [Quiet()]), Two(host), Observe(Tick(25)),
              Waiting(host), BeginCapture, Done(host));
  }

  lemma Configured()
    ensures SEGMENT_COST <= 3300 && C.Sound(Settings())
  {
  }

  lemma TurnsInOrder()
    ensures Turns() == [Collect(5, [Critical()]), Collect(15, [Quiet()]), Observe(Tick(25)), BeginCapture]
    ensures Clocked(Turns(), 0)
  {
    var turns := Turns();
    assert turns[1..] == [Collect(15, [Quiet()]), Observe(Tick(25)), BeginCapture];
    assert turns[1..][1..] == [Observe(Tick(25)), BeginCapture];
    assert turns[1..][1..][1..] == [BeginCapture];
    assert turns[1..][1..][1..][1..] == [];
  }
}
