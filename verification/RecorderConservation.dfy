/** No aggregate is lost silently: folding preserves every per-family sum, and accepted
    totals are always the retained, the time-expired and the memory-evicted ones. */
module RecorderConservation {
  import opened Telemetry
  import opened RecorderSpec
  import opened RecorderInvariant

  /** What a set of metrics says about one family: its counters, the time it covers, and
      how many of its intervals cover one chosen instant. */
  datatype Account = Account(tally: Tally, covered: int, layers: nat)

  function Nothing(): Account {
    Account(Zero(), 0, 0)
  }

  function Join(a: Account, b: Account): Account {
    Account(Plus(a.tally, b.tally), a.covered + b.covered, a.layers + b.layers)
  }

  lemma JoinLaws(a: Account, b: Account, c: Account)
    ensures Join(Join(a, b), c) == Join(a, Join(b, c))
    ensures Join(a, b) == Join(b, a)
    ensures Join(Nothing(), a) == a == Join(a, Nothing())
  {
    PlusLaws(a.tally, b.tally, c.tally);
  }

  function Weigh(m: Metric, family: string, instant: nat): Account {
    if m.family != family then Nothing()
    else Account(m.tally, m.end - m.start, if m.start <= instant < m.end then 1 else 0)
  }

  function Sum(ms: seq<Metric>, family: string, instant: nat): Account {
    if |ms| == 0 then Nothing() else Join(Weigh(ms[0], family, instant), Sum(ms[1..], family, instant))
  }

  lemma {:induction false} SumConcat(a: seq<Metric>, b: seq<Metric>, family: string, instant: nat)
    ensures Sum(a + b, family, instant) == Join(Sum(a, family, instant), Sum(b, family, instant))
  {
    if |a| == 0 {
      assert a + b == b;
      JoinLaws(Sum(b, family, instant), Nothing(), Nothing());
    } else {
      assert (a + b)[0] == a[0] && (a + b)[1..] == a[1..] + b;
      SumConcat(a[1..], b, family, instant);
      JoinLaws(Weigh(a[0], family, instant), Sum(a[1..], family, instant), Sum(b, family, instant));
    }
  }

  lemma SumOne(m: Metric, family: string, instant: nat)
    ensures Sum([m], family, instant) == Weigh(m, family, instant)
  {
    assert [m][1..] == [];
    JoinLaws(Weigh(m, family, instant), Nothing(), Nothing());
  }

  predicate Forward(ms: seq<Metric>) {
    forall m :: m in ms ==> m.start <= m.end
  }

  lemma MergeKeeps(prev: Metric, m: Metric, family: string, instant: nat)
    requires Continues(prev, m) && prev.start <= prev.end && m.start <= m.end
    ensures Weigh(Merge(prev, m), family, instant) == Join(Weigh(prev, family, instant), Weigh(m, family, instant))
  {
    if m.family != family {
      JoinLaws(Nothing(), Nothing(), Nothing());
    }
  }

  lemma {:induction false} ReplaceSum(ms: seq<Metric>, i: nat, m: Metric, family: string, instant: nat)
    requires i < |ms| && Continues(ms[i], m) && Forward(ms) && m.start <= m.end
    ensures Sum(ms[i := Merge(ms[i], m)], family, instant)
         == Join(Sum(ms, family, instant), Weigh(m, family, instant))
  {
    var r := ms[i := Merge(ms[i], m)];
    var w, rest := Weigh(m, family, instant), Sum(ms[1..], family, instant);
    var first := Weigh(ms[0], family, instant);
    if i == 0 {
      assert ms[0] in ms;
      assert r[1..] == ms[1..];
      MergeKeeps(ms[0], m, family, instant);
      JoinLaws(first, w, rest);
      JoinLaws(first, rest, w);
      JoinLaws(w, rest, Nothing());
    } else {
      assert r[1..] == ms[1..][i - 1 := Merge(ms[1..][i - 1], m)];
      ReplaceSum(ms[1..], i - 1, m, family, instant);
      JoinLaws(first, rest, w);
    }
  }

  lemma AddToRollupSum(a: Seg, m: Metric, family: string, instant: nat)
    requires Forward(a.metrics) && m.start <= m.end
    ensures Sum(AddToRollup(a, m).metrics, family, instant)
         == Join(Sum(a.metrics, family, instant), Weigh(m, family, instant))
  {
    var i := MergeIndex(a.metrics, m);
    if i < |a.metrics| {
      ReplaceSum(a.metrics, i, m, family, instant);
    } else {
      SumConcat(a.metrics, [m], family, instant);
      SumOne(m, family, instant);
    }
  }

  lemma {:induction false} AddAllSum(a: Seg, ms: seq<Metric>, family: string, instant: nat)
    requires RollupShape(a) && Forward(ms)
    ensures Sum(AddAll(a, ms).metrics, family, instant)
         == Join(Sum(a.metrics, family, instant), Sum(ms, family, instant))
    decreases |ms|
  {
    if |ms| == 0 {
      JoinLaws(Sum(a.metrics, family, instant), Nothing(), Nothing());
    } else {
      assert ms[0] in ms;
      AddToRollupHolds(a, ms[0]);
      AddToRollupSum(a, ms[0], family, instant);
      AddAllSum(AddToRollup(a, ms[0]), ms[1..], family, instant);
      JoinLaws(Sum(a.metrics, family, instant), Weigh(ms[0], family, instant), Sum(ms[1..], family, instant));
    }
  }

  // ----- what a state retains -----

  /** The account of the whole retained history. */
  function Holdings(s: State, family: string, instant: nat): Account {
    Sum(Retained(s), family, instant)
  }

  lemma HoldingsSplit(s: State, family: string, instant: nat)
    ensures Holdings(s, family, instant)
         == Join(Sum(RollupMetrics(s), family, instant), Sum(RawMetrics(s), family, instant))
  {
    hide Plus, Zero, Join, Sum;
    SumConcat(RollupMetrics(s), RawMetrics(s), family, instant);
  }

  lemma SameRetained(s: State, r: State, family: string, instant: nat)
    requires RollupMetrics(r) == RollupMetrics(s) && RawMetrics(r) == RawMetrics(s)
    ensures Holdings(r, family, instant) == Holdings(s, family, instant)
  {
  }

  lemma OpenRollupKeeps(s: State, oldest: Seg)
    requires |oldest.metrics| > 0
    ensures RollupMetrics(OpenRollup(s, oldest)) == RollupMetrics(s)
    ensures RawMetrics(OpenRollup(s, oldest)) == RawMetrics(s)
  {
    if s.rollupActive.Some? {
      MetricsOfAppend(s.rollups, s.rollupActive.value);
    }
  }

  lemma AddMetricsSum(u: State, ms: seq<Metric>, family: string, instant: nat)
    requires u.rollupActive.Some? && RollupShape(u.rollupActive.value) && Forward(ms)
    ensures Sum(RollupMetrics(AddMetrics(u, ms)), family, instant)
         == Join(Sum(RollupMetrics(u), family, instant), Sum(ms, family, instant))
  {
    hide Plus, Zero, Join, Sum;
    var a := u.rollupActive.value;
    AddAllSum(a, ms, family, instant);
    SumConcat(MetricsOf(u.rollups), a.metrics, family, instant);
    SumConcat(MetricsOf(u.rollups), AddAll(a, ms).metrics, family, instant);
    JoinLaws(Sum(MetricsOf(u.rollups), family, instant), Sum(a.metrics, family, instant), Sum(ms, family, instant));
  }

  /** Folding a segment changes no family's counters, covered time or interval layering. */
  lemma CompactKeeps(s: State, family: string, instant: nat)
    requires Inv(s) && |s.sealed| > 0
    ensures Holdings(CompactOldest(s), family, instant) == Holdings(s, family, instant)
  {
    hide Plus, Zero, Join, Sum;
    var oldest, t, r := s.sealed[0], DropRaw(s, true), CompactOldest(s);
    var up, old', raw := Sum(RollupMetrics(s), family, instant), Sum(oldest.metrics, family, instant),
                         Sum(RawMetrics(t), family, instant);
    assert RawMetrics(s) == oldest.metrics + RawMetrics(t);
    HoldingsSplit(s, family, instant);
    HoldingsSplit(r, family, instant);
    SumConcat(oldest.metrics, RawMetrics(t), family, instant);
    JoinLaws(up, old', raw);
    if |oldest.metrics| > 0 {
      CompactStep(s, family, instant);
    } else {
      assert RawMetrics(t) == RawMetrics(s);
    }
  }

  lemma CompactStep(s: State, family: string, instant: nat)
    requires Inv(s) && |s.sealed| > 0 && |s.sealed[0].metrics| > 0
    ensures var r := CompactOldest(s);
            Sum(RollupMetrics(r), family, instant)
              == Join(Sum(RollupMetrics(s), family, instant), Sum(s.sealed[0].metrics, family, instant)) &&
            RawMetrics(r) == RawMetrics(DropRaw(s, true))
  {
    hide Plus, Zero, Join, Sum;
    var oldest, t := s.sealed[0], DropRaw(s, true);
    DropRawHolds(s, true);
    OldestPrecedes(s);
    assert oldest in s.sealed;
    OpenRollupHolds(t, oldest);
    OpenRollupKeeps(t, oldest);
    AddMetricsSum(OpenRollup(t, oldest), oldest.metrics, family, instant);
  }

  lemma {:induction false} FoldKeeps(s: State, cost: nat, family: string, instant: nat)
    requires Inv(s)
    ensures Holdings(FoldUntilFits(s, cost), family, instant) == Holdings(s, family, instant)
    decreases |s.sealed|
  {
    if s.bytes + cost > s.max && |s.sealed| > 0 {
      CompactKeeps(s, family, instant);
      CompactHolds(s);
      FoldKeeps(CompactOldest(s), cost, family, instant);
    }
  }

  // ----- the ledger -----

  /** Accepted totals are accounted for: retained, expired or evicted. */
  predicate Balanced(s: State, family: string, instant: nat) {
    Sum(s.ledger.accepted, family, instant)
      == Join(Holdings(s, family, instant),
              Join(Sum(s.ledger.expired, family, instant), Sum(s.ledger.evicted, family, instant)))
  }

  lemma Exchange(a: Account, b: Account, x: Account, y: Account)
    ensures Join(Join(a, b), Join(x, y)) == Join(b, Join(Join(x, a), y))
    ensures Join(Join(a, b), Join(x, y)) == Join(b, Join(x, Join(y, a)))
    ensures Join(Join(b, a), Join(x, y)) == Join(Join(b, Join(x, y)), a)
  {
    JoinLaws(a, b, Join(x, y));
    JoinLaws(b, a, Join(x, y));
    JoinLaws(b, Join(x, y), a);
    JoinLaws(a, x, y);
    JoinLaws(x, a, y);
    JoinLaws(x, y, a);
    JoinLaws(a, Join(x, y), Nothing());
  }

  lemma DropRawBalances(s: State, family: string, instant: nat)
    requires |s.sealed| > 0 && Balanced(s, family, instant)
    ensures Balanced(DropRaw(s, false), family, instant)
  {
    hide Plus, Zero, Join, Sum;
    var r, ms := DropRaw(s, false), s.sealed[0].metrics;
    assert RawMetrics(s) == ms + RawMetrics(r);
    HoldingsSplit(s, family, instant);
    HoldingsSplit(r, family, instant);
    SumConcat(ms, RawMetrics(r), family, instant);
    SumConcat(s.ledger.expired, ms, family, instant);
    var up, raw := Sum(RollupMetrics(s), family, instant), Sum(RawMetrics(r), family, instant);
    var gone := Sum(ms, family, instant);
    JoinLaws(up, gone, raw);
    JoinLaws(gone, up, raw);
    JoinLaws(gone, Join(up, raw), Nothing());
    Exchange(gone, Join(up, raw), Sum(s.ledger.expired, family, instant), Sum(s.ledger.evicted, family, instant));
  }

  lemma DropRollupBalances(s: State, memory: bool, family: string, instant: nat)
    requires HasRollup(s) && Balanced(s, family, instant)
    ensures Balanced(DropRollup(s, memory), family, instant)
  {
    hide Plus, Zero, Join, Sum;
    var r := DropRollup(s, memory);
    var ms := if |s.rollups| > 0 then s.rollups[0].metrics else s.rollupActive.value.metrics;
    assert Retained(s) == ms + Retained(r);
    SumConcat(ms, Retained(r), family, instant);
    SumConcat(s.ledger.expired, ms, family, instant);
    SumConcat(s.ledger.evicted, ms, family, instant);
    Exchange(Sum(ms, family, instant), Holdings(r, family, instant),
             Sum(s.ledger.expired, family, instant), Sum(s.ledger.evicted, family, instant));
  }

  lemma SealBalances(s: State, now: nat, family: string, instant: nat)
    requires s.active.start <= now && Balanced(s, family, instant)
    ensures Balanced(Seal(s, now), family, instant)
  {
    var r := Seal(s, now);
    MetricsOfAppend(s.sealed, s.active.(end := s.active.start + s.interval));
    assert Retained(r) == Retained(s);
  }

  lemma {:induction false} ExpireSealedBalances(s: State, now: nat, family: string, instant: nat)
    requires Balanced(s, family, instant)
    ensures Balanced(ExpireSealed(s, now), family, instant)
    decreases |s.sealed|
  {
    if |s.sealed| > 0 && Aged(s.sealed[0].end, now, s.history) {
      DropRawBalances(s, family, instant);
      ExpireSealedBalances(DropRaw(s, false), now, family, instant);
    }
  }

  lemma {:induction false} ExpireRollupsBalances(s: State, now: nat, family: string, instant: nat)
    requires Balanced(s, family, instant)
    ensures Balanced(ExpireRollups(s, now), family, instant)
    decreases |s.rollups|
  {
    if |s.rollups| > 0 && Aged(s.rollups[0].end, now, s.history) {
      DropRollupBalances(s, false, family, instant);
      ExpireRollupsBalances(DropRollup(s, false), now, family, instant);
    }
  }

  lemma {:induction false} EvictBalances(s: State, cost: nat, family: string, instant: nat)
    requires Balanced(s, family, instant)
    ensures Balanced(EvictUntilFits(s, cost), family, instant)
    decreases RollupCount(s)
  {
    if s.bytes + cost > s.max && HasRollup(s) {
      DropRollupBalances(s, true, family, instant);
      EvictBalances(DropRollup(s, true), cost, family, instant);
    }
  }

  lemma FoldBalances(s: State, cost: nat, family: string, instant: nat)
    requires Inv(s) && Balanced(s, family, instant)
    ensures Balanced(FoldUntilFits(s, cost), family, instant)
  {
    FoldKeeps(s, cost, family, instant);
    FoldFrame(s, cost);
  }

  lemma AdvanceBalances(s: State, now: nat, family: string, instant: nat)
    requires Inv(s) && Balanced(s, family, instant)
    ensures Balanced(Advance(s, now), family, instant)
  {
    hide Plus, Zero, Join, Sum;
    if now >= s.active.start {
      var a := Seal(s, now);
      SealBalances(s, now, family, instant);
      ExpireSealedBalances(a, now, family, instant);
      var b := ExpireSealed(a, now);
      ExpireRollupsBalances(b, now, family, instant);
      var c := ExpireRollups(b, now);
      if c.rollupActive.Some? {
        DropRollupBalances(c, false, family, instant);
      }
      SealHolds(s, now);
      ExpireHolds(a, now);
      FoldBalances(Expire(a, now), 0, family, instant);
      EvictBalances(FoldUntilFits(Expire(a, now), 0), 0, family, instant);
    }
  }

  lemma AddMetricBalances(s: State, m: Metric, family: string, instant: nat)
    requires Buffered(s) && Balanced(s, family, instant)
    ensures Balanced(AddMetric(s, m), family, instant)
  {
    hide Plus, Zero, Join, Sum;
    assert Retained(AddMetric(s, m)) == Retained(s) + [m];
    SumConcat(Retained(s), [m], family, instant);
    SumConcat(s.ledger.accepted, [m], family, instant);
    Exchange(Sum([m], family, instant), Holdings(s, family, instant),
             Sum(s.ledger.expired, family, instant), Sum(s.ledger.evicted, family, instant));
  }

  /** Whatever is decided after room is made, nothing is lost silently. */
  lemma RoomBalances(t: State, cost: nat, metric: bool, family: string, instant: nat)
    requires Inv(t) && Balanced(t, family, instant)
    ensures Buffered(Room(t, cost, metric)) && Balanced(Room(t, cost, metric), family, instant)
  {
    InvBuffers(t);
    FoldFrame(t, cost);
    FoldBalances(t, cost, family, instant);
    EvictFrame(FoldUntilFits(t, cost), cost);
    hide Plus, Zero, Join, Sum, Balanced, Inv;
    EvictBalances(FoldUntilFits(t, cost), cost, family, instant);
  }

  /** A change to neither tier and not to the ledger. */
  lemma SameBalance(s: State, r: State, family: string, instant: nat)
    requires Balanced(s, family, instant) && r.ledger == s.ledger
    requires RollupMetrics(r) == RollupMetrics(s) && RawMetrics(r) == RawMetrics(s)
    ensures Balanced(r, family, instant)
  {
    SameRetained(s, r, family, instant);
  }

  lemma AcceptEventBalances(s: State, e: Event, now: nat, family: string, instant: nat)
    requires Inv(s) && Balanced(s, family, instant)
    ensures Buffered(s) && Balanced(AcceptEvent(s, e, now), family, instant)
  {
    InvBuffers(s);
    hide *;
    AdvanceHolds(s, now);
    AdvanceBalances(s, now, family, instant);
    EventOutcome(s, e, now);
    EventBalances(Advance(s, now), e, family, instant);
  }

  lemma EventBalances(t: State, e: Event, family: string, instant: nat)
    requires Inv(t) && Buffered(t) && Balanced(t, family, instant)
    ensures var u := Room(t, EventCost(t.active, e), false);
            Buffered(u) && Balanced(Drop(t), family, instant) && Balanced(AddEvent(u, e), family, instant) &&
            Balanced(Drop(u), family, instant)
  {
    var cost := EventCost(t.active, e);
    hide Plus, Zero, Join, Sum, Balanced, Inv;
    SameBalance(t, Drop(t), family, instant);
    RoomBalances(t, cost, false, family, instant);
    var u := Room(t, cost, false);
    SameBalance(u, AddEvent(u, e), family, instant);
    SameBalance(u, Drop(u), family, instant);
  }

  lemma AcceptMetricBalances(s: State, m: Metric, now: nat, family: string, instant: nat)
    requires Inv(s) && Balanced(s, family, instant)
    ensures Buffered(s) && Balanced(AcceptMetric(s, m, now), family, instant)
  {
    InvBuffers(s);
    hide *;
    AdvanceHolds(s, now);
    AdvanceBalances(s, now, family, instant);
    MetricOutcome(s, m, now);
    MetricBalances(Advance(s, now), m, family, instant);
  }

  lemma MetricBalances(t: State, m: Metric, family: string, instant: nat)
    requires Inv(t) && Buffered(t) && Balanced(t, family, instant)
    ensures var u := Room(t, MetricCost(t.active, m), true);
            Buffered(u) && Balanced(AddMetric(u, m), family, instant) && Balanced(Drop(u), family, instant)
  {
    var cost := MetricCost(t.active, m);
    hide Plus, Zero, Join, Sum, Balanced, Inv;
    RoomBalances(t, cost, true, family, instant);
    var u := Room(t, cost, true);
    AddMetricBalances(u, m, family, instant);
    SameBalance(u, Drop(u), family, instant);
  }

  lemma StepBalances(s: State, op: Op, family: string, instant: nat)
    requires Inv(s) && Legal(op) && Balanced(s, family, instant)
    ensures Balanced(Step(s, op), family, instant)
  {
    InvBuffers(s);
    hide Plus, Zero, Join, Sum;
    match op
    case Tick(now) => AdvanceBalances(s, now, family, instant);
    case Detail(e, now) => AcceptEventBalances(s, e, now, family, instant);
    case Aggregate(m, now) => AcceptMetricBalances(s, m, now, family, instant);
  }

  lemma {:induction false} RunBalances(s: State, ops: seq<Op>, family: string, instant: nat)
    requires Inv(s) && Balanced(s, family, instant) && forall op :: op in ops ==> Legal(op)
    ensures Balanced(Run(s, ops), family, instant)
    decreases |ops|
  {
    InvBuffers(s);
    hide Plus, Zero, Join, Sum;
    if |ops| > 0 {
      assert ops[0] in ops;
      StepBalances(s, ops[0], family, instant);
      StepHolds(s, ops[0]);
      RunBalances(Step(s, ops[0]), ops[1..], family, instant);
    }
  }

  lemma NewIsEmpty(history: nat, max: nat, interval: nat, started: nat)
    ensures Retained(New(history, max, interval, started)) == []
  {
  }

  /** Over any run from a new recorder, per family: accepted = retained + expired + evicted,
      for every counter, the covered time and the layering of every instant. */
  lemma RunConserves(history: nat, max: nat, interval: nat, started: nat, ops: seq<Op>,
                     family: string, instant: nat)
    requires SEGMENT_COST <= max && forall op :: op in ops ==> Legal(op)
    ensures var r := Run(New(history, max, interval, started), ops);
            Sum(r.ledger.accepted, family, instant)
              == Join(Sum(Retained(r), family, instant),
                      Join(Sum(r.ledger.expired, family, instant), Sum(r.ledger.evicted, family, instant)))
  {
    hide Plus, Zero, Join, Inv, Run;
    var s := New(history, max, interval, started);
    NewHolds(history, max, interval, started);
    NewIsEmpty(history, max, interval, started);
    JoinLaws(Nothing(), Nothing(), Nothing());
    RunBalances(s, ops, family, instant);
  }

  // ----- who may lose what -----

  /** Making room for an event loses no aggregate: nothing is recorded as lost and every
      retained sum is what it was. */
  lemma EventRoomLosesNothing(s: State, e: Event, now: nat, family: string, instant: nat)
    requires Inv(s)
    ensures var t := Advance(s, now);
            var r := AcceptEvent(s, e, now);
            r.ledger == t.ledger && Holdings(r, family, instant) == Holdings(t, family, instant)
  {
    InvBuffers(s);
    hide *;
    AdvanceHolds(s, now);
    EventOutcome(s, e, now);
    EventRoomKeeps(Advance(s, now), e, family, instant);
  }

  lemma EventRoomKeeps(t: State, e: Event, family: string, instant: nat)
    requires Inv(t) && Buffered(t)
    ensures var u := Room(t, EventCost(t.active, e), false);
            Buffered(u) && u.ledger == t.ledger && u.active == t.active && Drop(t).ledger == t.ledger &&
            AddEvent(u, e).ledger == t.ledger && Drop(u).ledger == t.ledger &&
            Holdings(Drop(t), family, instant) == Holdings(t, family, instant) &&
            Holdings(AddEvent(u, e), family, instant) == Holdings(t, family, instant) &&
            Holdings(Drop(u), family, instant) == Holdings(t, family, instant)
  {
    var cost := EventCost(t.active, e);
    FoldKeeps(t, cost, family, instant);
    FoldFrame(t, cost);
    hide Inv, Holdings;
    var u := Room(t, cost, false);
    SameRetained(t, Drop(t), family, instant);
    SameRetained(u, AddEvent(u, e), family, instant);
    SameRetained(u, Drop(u), family, instant);
  }

  lemma AdvanceEvictsLast(s: State, now: nat)
    ensures Advance(s, now).ledger.evicted != s.ledger.evicted ==> Advance(s, now).sealed == []
  {
    if now >= s.active.start {
      var a := Seal(s, now);
      ExpireSealedFrame(a, now);
      ExpireRollupsFrame(ExpireSealed(a, now), now);
      FoldFrame(Expire(a, now), 0);
      EvictFrame(FoldUntilFits(Expire(a, now), 0), 0);
    }
  }

  /** A rollup is evicted for memory only when no sealed raw segment is left to fold. */
  lemma EvictionOnlyWithoutRaw(s: State, op: Op)
    requires Inv(s)
    ensures Step(s, op).ledger.evicted != s.ledger.evicted ==> Step(s, op).sealed == []
  {
    AdvanceHolds(s, op.now);
    AdvanceEvictsLast(s, op.now);
    var t := Advance(s, op.now);
    match op
    case Tick(_) =>
    case Detail(e, now) => FoldFrame(t, EventCost(t.active, e));
    case Aggregate(m, now) =>
      var cost := MetricCost(t.active, m);
      FoldFrame(t, cost);
      EvictFrame(FoldUntilFits(t, cost), cost);
  }
}
