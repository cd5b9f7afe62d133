/** What the raw history holds: exactly the newest of the details and aggregates that were accepted,
    as they were offered and in that order. */
module RecorderDetails {
  import opened Telemetry
  import opened RecorderSpec
  import opened RecorderInvariant
  import opened RecorderBudget
  import opened RecorderFoldCost
  import opened SnapshotSpec

  /** The last part of a list. */
  predicate Tail<T(==)>(ys: seq<T>, xs: seq<T>) {
    |ys| <= |xs| && ys == xs[|xs| - |ys|..]
  }

  lemma TailTrans<T>(zs: seq<T>, ys: seq<T>, xs: seq<T>)
    requires Tail(zs, ys) && Tail(ys, xs)
    ensures Tail(zs, xs)
  {
  }

  lemma TailAppend<T>(ys: seq<T>, xs: seq<T>, x: T)
    requires Tail(ys, xs)
    ensures Tail(ys + [x], xs + [x])
  {
  }

  lemma TailOf<T>(front: seq<T>, back: seq<T>)
    ensures Tail(back, front + back)
  {
  }

  /** The last part of a list, and then `more`. */
  predicate Extends<T(==)>(ys: seq<T>, xs: seq<T>, more: seq<T>) {
    |more| <= |ys| && ys[|ys| - |more|..] == more && Tail(ys[..|ys| - |more|], xs)
  }

  lemma Extended<T>(kept: seq<T>, xs: seq<T>, more: seq<T>)
    requires Tail(kept, xs)
    ensures Extends(kept + more, xs, more)
  {
    assert (kept + more)[..|kept|] == kept;
  }

  lemma Appended<T>(ys: seq<T>, xs: seq<T>, more: seq<T>, all: seq<T>)
    requires Tail(xs, all) && Extends(ys, xs, more)
    ensures Tail(ys, all + more)
  {
    var kept := ys[..|ys| - |more|];
    TailTrans(kept, xs, all);
    assert ys == kept + more;
  }

  function RawEvents(s: State): seq<Event> {
    EventsOf(s.sealed) + s.active.events
  }

  lemma {:induction false} EventsOfConcat(a: seq<Seg>, b: seq<Seg>)
    ensures EventsOf(a + b) == EventsOf(a) + EventsOf(b)
  {
    if |a| == 0 {
      assert a + b == b;
    } else {
      assert (a + b)[1..] == a[1..] + b;
      EventsOfConcat(a[1..], b);
    }
  }

  lemma {:induction false} NoEventsOf(gs: seq<Seg>)
    requires forall g :: g in gs ==> g.events == []
    ensures EventsOf(gs) == []
  {
    if |gs| > 0 {
      assert gs[0] in gs;
      NoEventsOf(gs[1..]);
    }
  }

  /** Rollups hold no details. */
  lemma DetailsAreRaw(s: State)
    requires Inv(s)
    ensures EventsOf(Segments(s)) == RawEvents(s)
  {
    NoEventsOf(Rollups(s));
    EventsOfConcat(Rollups(s), RawSegments(s));
    EventsOfConcat(s.sealed, [s.active]);
    assert EventsOf([s.active]) == s.active.events by { assert [s.active][1..] == []; }
  }

  /** Losing the oldest sealed segments loses the oldest details and aggregates. */
  lemma FewerSealed(s: State, r: State)
    requires r.active.events == s.active.events && r.active.metrics == s.active.metrics && Tail(r.sealed, s.sealed)
    ensures Tail(RawEvents(r), RawEvents(s)) && Tail(RawMetrics(r), RawMetrics(s))
  {
    var front := s.sealed[..|s.sealed| - |r.sealed|];
    assert s.sealed == front + r.sealed;
    EventsOfConcat(front, r.sealed);
    MetricsOfConcat(front, r.sealed);
    assert RawEvents(s) == EventsOf(front) + RawEvents(r);
    assert RawMetrics(s) == MetricsOf(front) + RawMetrics(r);
  }

  lemma SealKeeps(s: State, now: nat)
    requires s.active.start <= now
    ensures RawEvents(Seal(s, now)) == RawEvents(s) && RawMetrics(Seal(s, now)) == RawMetrics(s)
  {
    var g := s.active.(end := s.active.start + s.interval);
    EventsOfConcat(s.sealed, [g]);
    MetricsOfConcat(s.sealed, [g]);
    assert EventsOf([g]) == g.events && MetricsOf([g]) == g.metrics by { assert [g][1..] == []; }
  }

  lemma RoomKeeps(t: State, cost: nat, metric: bool)
    ensures var u := Room(t, cost, metric); Tail(RawEvents(u), RawEvents(t)) && Tail(RawMetrics(u), RawMetrics(t))
  {
    FoldFrame(t, cost);
    EvictFrame(FoldUntilFits(t, cost), cost);
    hide RawEvents, RawMetrics;
    FewerSealed(t, Room(t, cost, metric));
  }

  lemma AdvanceKeeps(s: State, now: nat)
    ensures var r := Advance(s, now); Tail(RawEvents(r), RawEvents(s)) && Tail(RawMetrics(r), RawMetrics(s))
  {
    hide RawEvents, RawMetrics;
    if now >= s.active.start {
      var a := Seal(s, now);
      SealKeeps(s, now);
      ExpireSealedFrame(a, now);
      ExpireRollupsFrame(ExpireSealed(a, now), now);
      var b := Expire(a, now);
      FewerSealed(a, b);
      RoomKeeps(b, 0, true);
      TailTrans(RawEvents(Room(b, 0, true)), RawEvents(b), RawEvents(a));
      TailTrans(RawMetrics(Room(b, 0, true)), RawMetrics(b), RawMetrics(a));
    }
  }

  // ----- one call -----

  /** A detail is accepted exactly when it is not from the future, not older than the history, and
      folding can make room for it. */
  predicate Admitted(s: State, e: Event, now: nat)
    requires Buffered(Advance(s, now))
  {
    e.mono <= now <= e.mono + s.history && RoomByFolding(Advance(s, now), EventCost(Advance(s, now).active, e))
  }

  /** An accepted detail is appended as it is to the newest of what was there; a refused one is not. */
  lemma EventExact(s: State, e: Event, now: nat)
    requires Inv(s)
    ensures Buffered(s) && Buffered(Advance(s, now))
    ensures var r := AcceptEvent(s, e, now);
            Tail(RawMetrics(r), RawMetrics(s)) && r.drops == s.drops + (if Admitted(s, e, now) then 0 else 1) &&
            Extends(RawEvents(r), RawEvents(s), if Admitted(s, e, now) then [e] else [])
  {
    hide *;
    InvBuffers(s);
    AdvanceHolds(s, now);
    AdvanceFrame(s, now);
    AdvanceKeeps(s, now);
    EventOutcome(s, e, now);
    AdmittedExactly(s, e, now);
    var t := Advance(s, now);
    var u := EventTails(t, e);
    TailTrans(RawEvents(u), RawEvents(t), RawEvents(s));
    TailTrans(RawMetrics(u), RawMetrics(t), RawMetrics(s));
    Extended(RawEvents(t), RawEvents(s), []);
    Extended(RawEvents(u), RawEvents(s), []);
    Extended(RawEvents(u), RawEvents(s), [e]);
    assert RawEvents(t) + [] == RawEvents(t) && RawEvents(u) + [] == RawEvents(u);
  }

  lemma AdmittedExactly(s: State, e: Event, now: nat)
    requires Inv(s)
    ensures Buffered(s) && Buffered(Advance(s, now))
    ensures var t := Advance(s, now);
            var cost := EventCost(t.active, e);
            Admitted(s, e, now) <==>
              !Late(e, now, t.history) && Room(t, cost, false).bytes + cost <= Room(t, cost, false).max
  {
    InvBuffers(s);
    AdvanceKeepsBuffers(s, now);
    AdvanceFrame(s, now);
    AdvanceHolds(s, now);
    hide Inv, Advance, RoomByFolding, FoldUntilFits;
    var t := Advance(s, now);
    FoldFrame(t, EventCost(t.active, e));
    FoldUntilExactly(t, EventCost(t.active, e));
  }

  /** Of an event: what making room and each outcome leave of the raw history. */
  lemma EventTails(t: State, e: Event) returns (u: State)
    requires Buffered(t)
    ensures u == Room(t, EventCost(t.active, e), false)
    ensures Buffered(u) && Tail(RawEvents(u), RawEvents(t)) && Tail(RawMetrics(u), RawMetrics(t)) &&
            RawEvents(Drop(t)) == RawEvents(t) && RawMetrics(Drop(t)) == RawMetrics(t) &&
            RawEvents(Drop(u)) == RawEvents(u) && RawMetrics(Drop(u)) == RawMetrics(u) &&
            RawEvents(AddEvent(u, e)) == RawEvents(u) + [e] && RawMetrics(AddEvent(u, e)) == RawMetrics(u) &&
            AddEvent(u, e).drops == u.drops && Drop(u).drops == u.drops + 1 && Drop(t).drops == t.drops + 1
  {
    hide RawEvents, RawMetrics, FoldUntilFits, EventCost, Tail;
    FoldFrame(t, EventCost(t.active, e));
    RoomKeeps(t, EventCost(t.active, e), false);
    u := Room(t, EventCost(t.active, e), false);
    SameRaw(t, Drop(t));
    SameRaw(u, Drop(u));
    PushedEvent(u, e);
  }

  lemma SameRaw(s: State, r: State)
    requires r.sealed == s.sealed && r.active.events == s.active.events && r.active.metrics == s.active.metrics
    ensures RawEvents(r) == RawEvents(s) && RawMetrics(r) == RawMetrics(s)
  {
  }

  lemma PushedEvent(u: State, e: Event)
    requires Buffered(u)
    ensures RawEvents(AddEvent(u, e)) == RawEvents(u) + [e] && RawMetrics(AddEvent(u, e)) == RawMetrics(u)
    ensures AddEvent(u, e).drops == u.drops && Drop(u).drops == u.drops + 1
  {
  }

  lemma PushedMetric(u: State, m: Metric)
    requires Buffered(u)
    ensures RawEvents(AddMetric(u, m)) == RawEvents(u) && RawMetrics(AddMetric(u, m)) == RawMetrics(u) + [m]
    ensures AddMetric(u, m).drops == u.drops && Drop(u).drops == u.drops + 1
    ensures AddMetric(u, m).ledger.accepted == u.ledger.accepted + [m]
  {
  }

  /** An accepted aggregate is appended as it is; a refused one is not. */
  lemma MetricExact(s: State, m: Metric, now: nat)
    requires Inv(s)
    ensures Buffered(s)
    ensures var r := AcceptMetric(s, m, now);
            Tail(RawEvents(r), RawEvents(s)) && (r.drops == s.drops || r.drops == s.drops + 1) &&
            r.ledger.accepted == s.ledger.accepted + (if r.drops == s.drops then [m] else []) &&
            Extends(RawMetrics(r), RawMetrics(s), if r.drops == s.drops then [m] else [])
  {
    hide *;
    InvBuffers(s);
    AdvanceFrame(s, now);
    AdvanceKeeps(s, now);
    MetricOutcome(s, m, now);
    var t := Advance(s, now);
    var u := MetricTails(t, m);
    TailTrans(RawEvents(u), RawEvents(t), RawEvents(s));
    TailTrans(RawMetrics(u), RawMetrics(t), RawMetrics(s));
    Extended(RawMetrics(u), RawMetrics(s), []);
    Extended(RawMetrics(u), RawMetrics(s), [m]);
    assert RawMetrics(u) + [] == RawMetrics(u) && u.ledger.accepted + [] == u.ledger.accepted;
  }

  lemma MetricTails(t: State, m: Metric) returns (u: State)
    requires Buffered(t)
    ensures u == Room(t, MetricCost(t.active, m), true)
    ensures Buffered(u) && Tail(RawEvents(u), RawEvents(t)) && Tail(RawMetrics(u), RawMetrics(t)) &&
            RawEvents(Drop(u)) == RawEvents(u) && RawMetrics(Drop(u)) == RawMetrics(u) && u.drops == t.drops &&
            RawEvents(AddMetric(u, m)) == RawEvents(u) && RawMetrics(AddMetric(u, m)) == RawMetrics(u) + [m] &&
            AddMetric(u, m).drops == u.drops && Drop(u).drops == u.drops + 1 && Drop(u).ledger == u.ledger &&
            AddMetric(u, m).ledger.accepted == u.ledger.accepted + [m]
  {
    hide RawEvents, RawMetrics, FoldUntilFits, EvictUntilFits, MetricCost, Tail;
    var cost := MetricCost(t.active, m);
    FoldFrame(t, cost);
    EvictFrame(FoldUntilFits(t, cost), cost);
    RoomKeeps(t, cost, true);
    u := Room(t, cost, true);
    SameRaw(u, Drop(u));
    PushedMetric(u, m);
  }

  // ----- runs -----

  /** What a call adds to the details accepted. */
  function AcceptedBy(s: State, op: Op): seq<Event>
    requires Buffered(s)
  {
    if op.Detail? && Step(s, op).drops == s.drops then [op.event] else []
  }

  /** The details accepted along a run. */
  function Accepted(s: State, ops: seq<Op>): seq<Event>
    requires Inv(s) && forall op :: op in ops ==> Legal(op)
    decreases |ops|
  {
    if |ops| == 0 then []
    else
      InvBuffers(s);
      assert ops[0] in ops;
      StepHolds(s, ops[0]);
      AcceptedBy(s, ops[0]) + Accepted(Step(s, ops[0]), ops[1..])
  }

  lemma StepTails(s: State, op: Op, events: seq<Event>)
    requires Inv(s) && Legal(op) && Tail(RawEvents(s), events) && Tail(RawMetrics(s), s.ledger.accepted)
    ensures Buffered(s)
    ensures Tail(RawEvents(Step(s, op)), events + AcceptedBy(s, op))
    ensures Tail(RawMetrics(Step(s, op)), Step(s, op).ledger.accepted)
  {
    hide Inv, RawEvents, RawMetrics, Advance, AcceptEvent, AcceptMetric, Tail, Extends, Admitted, Buffered;
    InvBuffers(s);
    var r := Step(s, op);
    match op
    case Tick(now) =>
      AdvanceFrame(s, now);
      AdvanceKeeps(s, now);
      TailTrans(RawEvents(r), RawEvents(s), events);
      TailTrans(RawMetrics(r), RawMetrics(s), s.ledger.accepted);
      assert events + [] == events;
    case Detail(e, now) =>
      EventExact(s, e, now);
      AcceptedLedger(s, e, now);
      Appended(RawEvents(r), RawEvents(s), AcceptedBy(s, op), events);
      TailTrans(RawMetrics(r), RawMetrics(s), s.ledger.accepted);
    case Aggregate(m, now) =>
      MetricExact(s, m, now);
      TailTrans(RawEvents(r), RawEvents(s), events);
      Appended(RawMetrics(r), RawMetrics(s), if r.drops == s.drops then [m] else [], s.ledger.accepted);
      assert events + [] == events;
  }

  lemma AcceptedLedger(s: State, e: Event, now: nat)
    requires Buffered(s)
    ensures AcceptEvent(s, e, now).ledger.accepted == s.ledger.accepted
  {
    AdvanceFrame(s, now);
    EventOutcome(s, e, now);
    hide Advance, AcceptEvent, Room;
  }

  lemma {:induction false} RunTails(s: State, ops: seq<Op>, events: seq<Event>)
    requires Inv(s) && forall op :: op in ops ==> Legal(op)
    requires Tail(RawEvents(s), events) && Tail(RawMetrics(s), s.ledger.accepted)
    ensures Buffered(s)
    ensures Tail(RawEvents(Run(s, ops)), events + Accepted(s, ops))
    ensures Tail(RawMetrics(Run(s, ops)), Run(s, ops).ledger.accepted)
    decreases |ops|
  {
    hide Inv, RawEvents, RawMetrics, Tail, Step, Legal, Buffered;
    InvBuffers(s);
    if |ops| == 0 {
      assert events + [] == events;
    } else {
      var op := ops[0];
      assert op in ops;
      StepTails(s, op, events);
      StepHolds(s, op);
      StepKeepsBuffers(s, op);
      var next := events + AcceptedBy(s, op);
      RunTails(Step(s, op), ops[1..], next);
      assert next + Accepted(Step(s, op), ops[1..]) == events + Accepted(s, ops);
    }
  }

  lemma Starts(history: nat, max: nat, interval: nat, started: nat)
    ensures var s := New(history, max, interval, started);
            RawEvents(s) == [] && RawMetrics(s) == [] && s.ledger.accepted == []
  {
  }

  /** Over any run: the details retained are the newest of those accepted, each as it was offered,
      and so are the aggregates of the raw tier. */
  lemma RetainedAreNewest(history: nat, max: nat, interval: nat, started: nat, ops: seq<Op>)
    requires SEGMENT_COST <= max && forall op :: op in ops ==> Legal(op)
    ensures Inv(New(history, max, interval, started))
    ensures var s := New(history, max, interval, started);
            var r := Run(s, ops);
            Tail(EventsOf(Segments(r)), Accepted(s, ops)) && Tail(RawMetrics(r), r.ledger.accepted)
  {
    hide Inv, RawEvents, RawMetrics, Run, Accepted, EventsOf, Segments, Legal, New;
    NewHolds(history, max, interval, started);
    var s := New(history, max, interval, started);
    Starts(history, max, interval, started);
    RunTails(s, ops, []);
    RunHolds(s, ops);
    DetailsAreRaw(Run(s, ops));
    assert [] + Accepted(s, ops) == Accepted(s, ops);
  }
}
