/** What the recorder's segments, buffers, bytes and counters come to, in numbers. */
module RecorderAccounts {
  import opened Telemetry
  import opened RecorderSpec
  import opened RecorderInvariant
  import opened RecorderFoldCost
  import opened RecorderDetails

  // ----- buffers -----

  /** The least of 0, `first`, twice that, and so on, that holds `n` entries. */
  function Doubled(first: nat, n: nat): (c: nat)
    requires first > 0
    ensures n <= c
  {
    if n == 0 then 0 else if n <= first then first else 2 * Doubled(first, (n + 1) / 2)
  }

  lemma {:induction false} DoubledNext(first: nat, n: nat)
    requires first > 0
    ensures Grown(n, Doubled(first, n), first) == Doubled(first, n + 1)
  {
    if n > first && n % 2 == 0 {
      DoubledNext(first, n / 2);
    }
  }

  // ----- bytes -----

  /** The bytes of a detail's nine strings. */
  function Letters(es: seq<Event>): nat {
    if |es| == 0 then 0
    else
      var e := es[|es| - 1];
      Letters(es[..|es| - 1]) + |e.kind| + |e.text.comm| + |e.text.operation| + |e.text.sourceIP| +
      |e.text.destinationIP| + |e.text.cgroupPath| + |e.text.tcpDirection| + |e.text.socketContext| +
      |e.text.endpointSource|
  }

  /** A raw segment: its buffers are the least that hold what came, and it is charged for
      itself, for every slot of them and for the strings. */
  predicate RawTold(g: Seg) {
    g.eventCap == Doubled(64, |g.events|) && g.metricCap == Doubled(4, |g.metrics|) &&
    g.bytes == 512 + 224 * (g.eventCap + g.metricCap) + Letters(g.events) + Names(g.metrics)
  }

  predicate RollupTold(g: Seg) {
    g.events == [] && g.metricCap == Doubled(4, |g.metrics|) && g.bytes == 512 + 224 * g.metricCap
  }

  /** Sealed segments are one interval long, and the one being written is not yet that long. */
  predicate RawExact(s: State) {
    (forall g :: g in s.sealed ==> RawTold(g) && g.end == g.start + s.interval) && RawTold(s.active) &&
    s.active.start <= s.active.end && (s.active.end < s.active.start + s.interval || s.active.end == s.active.start)
  }

  // ----- one call -----

  lemma SealExact(s: State, now: nat)
    requires RawExact(s) && s.active.start <= now
    ensures RawExact(Seal(s, now))
  {
    var g := s.active.(end := s.active.start + s.interval);
    assert RawTold(g) && RawTold(Fresh(now));
    forall h | h in s.sealed + [g] ensures RawTold(h) && h.end == h.start + s.interval {
      assert h in s.sealed || h == g;
    }
  }

  /** Time cuts the raw history: a segment one interval old is closed, and the next one starts now. A
      time before the start of the segment being written changes nothing. */
  lemma AdvanceCuts(s: State, now: nat)
    ensures now < s.active.start ==> Advance(s, now) == s
    ensures s.active.start <= now ==>
              var g := Advance(s, now).active;
              if s.active.start + s.interval <= now
              then g.start == g.end == now && g.events == [] && g.metrics == [] && g.bytes == 512
              else g == s.active.(end := now)
  {
    AdvanceFrame(s, now);
    hide EvictUntilFits, FoldUntilFits, Expire;
  }

  lemma FewerExact(s: State, r: State)
    requires RawExact(s) && r.active == s.active && r.interval == s.interval && Tail(r.sealed, s.sealed)
    ensures RawExact(r)
  {
    hide RawTold;
  }

  lemma AdvanceExact(s: State, now: nat)
    requires RawExact(s)
    ensures RawExact(Advance(s, now))
  {
    hide RawExact;
    if now >= s.active.start {
      var a := Seal(s, now);
      SealExact(s, now);
      ExpireSealedFrame(a, now);
      ExpireRollupsFrame(ExpireSealed(a, now), now);
      var b := Expire(a, now);
      FewerExact(a, b);
      RoomExact(b, 0, true);
    }
  }

  lemma RoomExact(t: State, cost: nat, metric: bool)
    requires RawExact(t)
    ensures RawExact(Room(t, cost, metric)) && Room(t, cost, metric).active == t.active
  {
    FoldFrame(t, cost);
    EvictFrame(FoldUntilFits(t, cost), cost);
    hide RawExact;
    FewerExact(t, Room(t, cost, metric));
  }

  /** The charge for one more detail: its strings, and the slots of a larger buffer if it is full. */
  lemma EventCharge(g: Seg, e: Event)
    requires RawTold(g)
    ensures EventCost(g, e) == Letters([e]) + 224 * (Doubled(64, |g.events| + 1) - Doubled(64, |g.events|))
  {
    DoubledNext(64, |g.events|);
    assert [e][..0] == [];
  }

  lemma MetricCharge(g: Seg, m: Metric)
    requires RawTold(g)
    ensures MetricCost(g, m) == |m.family| + 224 * (Doubled(4, |g.metrics| + 1) - Doubled(4, |g.metrics|))
  {
    DoubledNext(4, |g.metrics|);
  }

  lemma AddEventExact(s: State, e: Event)
    requires RawExact(s)
    ensures RawExact(AddEvent(s, e))
  {
    var g, r := s.active, AddEvent(s, e);
    EventCharge(g, e);
    DoubledNext(64, |g.events|);
    assert (g.events + [e])[..|g.events|] == g.events && [e][..0] == [];
    assert RawTold(r.active);
  }

  lemma AddMetricExact(s: State, m: Metric)
    requires RawExact(s)
    ensures RawExact(AddMetric(s, m))
  {
    var g, r := s.active, AddMetric(s, m);
    MetricCharge(g, m);
    DoubledNext(4, |g.metrics|);
    assert (g.metrics + [m])[..|g.metrics|] == g.metrics;
    assert RawTold(r.active);
  }

  /** An aggregate is accepted exactly when it fits beside the segment being written: everything
      else gives way to it. */
  lemma MetricAdmitted(s: State, m: Metric, now: nat)
    requires Inv(s) && RawExact(s)
    ensures Buffered(s)
    ensures var g := Advance(s, now).active;
            var n := |g.metrics|;
            AcceptMetric(s, m, now).drops == s.drops <==>
              g.bytes + |m.family| + 224 * (Doubled(4, n + 1) - Doubled(4, n)) <= s.max
  {
    InvBuffers(s);
    AdvanceExact(s, now);
    AdvanceHolds(s, now);
    AdvanceFrame(s, now);
    MetricOutcome(s, m, now);
    var t := Advance(s, now);
    MetricCharge(t.active, m);
    ActiveAlone(t, MetricCost(t.active, m));
    DropsOnly(Room(t, MetricCost(t.active, m), true), t, m);
  }

  /** Making room for an aggregate succeeds exactly when the active segment alone leaves it. */
  lemma ActiveAlone(t: State, cost: nat)
    requires Inv(t)
    ensures var u := Room(t, cost, true);
            u.drops == t.drops && u.max == t.max && (u.bytes + cost <= u.max <==> t.active.bytes + cost <= t.max)
  {
    RoomHolds(t, cost, true);
    FoldFrame(t, cost);
    EvictFrame(FoldUntilFits(t, cost), cost);
    hide FoldUntilFits, EvictUntilFits, RawCharge;
    var u := Room(t, cost, true);
    SumsPositive(u);
  }

  lemma {:induction false} SumPositive(gs: seq<Seg>)
    requires forall g :: g in gs ==> g.bytes >= 0
    ensures SumBytes(gs) >= 0
  {
    if |gs| > 0 {
      assert gs[0] in gs;
      SumPositive(gs[1..]);
    }
  }

  lemma SumsPositive(u: State)
    requires Inv(u)
    ensures u.active.bytes <= u.bytes
    ensures |u.sealed| == 0 && !HasRollup(u) ==> u.bytes == u.active.bytes
  {
    SumPositive(u.sealed);
    SumPositive(u.rollups);
  }

  lemma DropsOnly(u: State, t: State, m: Metric)
    requires Buffered(u) && u.drops == t.drops
    ensures AddMetric(u, m).drops == t.drops && Drop(u).drops == t.drops + 1
  {
  }

  // ----- folding and evicting as little as possible -----

  /** Folding stops at the first state in which the cost fits: each fold before it was over the budget,
      and counts once. Growth is the arithmetic of what the folds cost and free. */
  lemma {:induction false} FoldsLeast(s: State, cost: nat)
    requires Inv(s)
    ensures var r := FoldUntilFits(s, cost);
            var k := |s.sealed| - |r.sealed|;
            0 <= k && r.sealed == s.sealed[k..] && r.bytes == s.bytes + Growth(ShapeOf(s), s.sealed[..k]) &&
            (forall j :: 0 <= j < k ==> s.bytes + Growth(ShapeOf(s), s.sealed[..j]) + cost > s.max) &&
            (r.bytes + cost <= s.max || r.sealed == []) &&
            r.evictions == s.evictions + k && r.aggregateEvictions == s.aggregateEvictions
    decreases |s.sealed|
  {
    hide Reshaped, Charge, Inv, ShapeOf, CompactOldest;
    assert s.sealed[..0] == [] && Growth(ShapeOf(s), []) == 0 && s.sealed[0..] == s.sealed;
    if s.bytes + cost > s.max && |s.sealed| > 0 {
      var t := CompactOldest(s);
      CompactCost(s);
      CompactHolds(s);
      FoldsLeast(t, cost);
      var k := |t.sealed| - |FoldUntilFits(t, cost).sealed|;
      GrowthNext(ShapeOf(s), s.sealed, k + 1);
      assert t.sealed[k..] == s.sealed[k + 1..];
      forall j | 0 <= j < k + 1 ensures s.bytes + Growth(ShapeOf(s), s.sealed[..j]) + cost > s.max {
        if j > 0 {
          GrowthNext(ShapeOf(s), s.sealed, j);
        }
      }
    }
  }

  lemma RollupsNext(s: State)
    requires HasRollup(s)
    ensures |Rollups(s)| > 0 && Rollups(DropRollup(s, true)) == Rollups(s)[1..]
    ensures var t := DropRollup(s, true);
            t.bytes == s.bytes - Rollups(s)[0].bytes && t.aggregateEvictions == s.aggregateEvictions + 1 &&
            t.evictions == s.evictions && t.max == s.max && t.sealed == s.sealed
  {
  }

  lemma SumBytesNext(gs: seq<Seg>, k: nat)
    requires 0 < k <= |gs|
    ensures SumBytes(gs[..k]) == gs[0].bytes + SumBytes(gs[1..][..k - 1])
  {
    assert gs[..k][1..] == gs[1..][..k - 1];
  }

  /** Evicting takes the oldest rollups, one by one, only while the cost does not fit, and counts each. */
  lemma {:induction false} EvictsLeast(s: State, cost: nat)
    ensures var r := EvictUntilFits(s, cost);
            var k := |Rollups(s)| - |Rollups(r)|;
            0 <= k && Rollups(r) == Rollups(s)[k..] && r.bytes == s.bytes - SumBytes(Rollups(s)[..k]) &&
            (forall j :: 0 <= j < k ==> s.bytes - SumBytes(Rollups(s)[..j]) + cost > s.max) &&
            (r.bytes + cost <= s.max || Rollups(r) == []) &&
            r.aggregateEvictions == s.aggregateEvictions + k && r.evictions == s.evictions
    decreases RollupCount(s)
  {
    var gs := Rollups(s);
    assert gs[..0] == [] && gs[0..] == gs;
    if s.bytes + cost > s.max && HasRollup(s) {
      RollupsNext(s);
      var t := DropRollup(s, true);
      EvictsLeast(t, cost);
      hide Rollups, DropRollup;
      var k := |Rollups(t)| - |Rollups(EvictUntilFits(t, cost))|;
      SumBytesNext(gs, k + 1);
      assert gs[1..][k..] == gs[k + 1..];
      forall j | 0 <= j < k + 1 ensures s.bytes - SumBytes(gs[..j]) + cost > s.max {
        if j > 0 {
          SumBytesNext(gs, j);
        }
      }
    }
  }

  /** Losing history to age counts as no eviction. */
  lemma ExpireCountsNothing(s: State, now: nat)
    ensures var r := Expire(s, now); r.evictions == s.evictions && r.aggregateEvictions == s.aggregateEvictions
  {
    ExpireSealedCounts(s, now);
    ExpireRollupsCounts(ExpireSealed(s, now), now);
  }

  lemma {:induction false} ExpireSealedCounts(s: State, now: nat)
    ensures var r := ExpireSealed(s, now); r.evictions == s.evictions && r.aggregateEvictions == s.aggregateEvictions
    decreases |s.sealed|
  {
    if |s.sealed| > 0 && Aged(s.sealed[0].end, now, s.history) {
      ExpireSealedCounts(DropRaw(s, false), now);
    }
  }

  lemma {:induction false} ExpireRollupsCounts(s: State, now: nat)
    ensures var r := ExpireRollups(s, now); r.evictions == s.evictions && r.aggregateEvictions == s.aggregateEvictions
    decreases |s.rollups|
  {
    if |s.rollups| > 0 && Aged(s.rollups[0].end, now, s.history) {
      ExpireRollupsCounts(DropRollup(s, false), now);
    }
  }

  // ----- runs -----

  lemma StepExact(s: State, op: Op)
    requires Inv(s) && RawExact(s)
    ensures Buffered(s) && RawExact(Step(s, op))
  {
    hide Inv, RawExact, Advance, Room, AddEvent, AddMetric;
    InvBuffers(s);
    AdvanceExact(s, op.now);
    match op
    case Tick(_) =>
    case Detail(e, now) =>
      EventOutcome(s, e, now);
      var t := Advance(s, now);
      var u := Room(t, EventCost(t.active, e), false);
      RoomExact(t, EventCost(t.active, e), false);
      AddEventExact(u, e);
      DropExact(t);
      DropExact(u);
    case Aggregate(m, now) =>
      MetricOutcome(s, m, now);
      var t := Advance(s, now);
      var u := Room(t, MetricCost(t.active, m), true);
      RoomExact(t, MetricCost(t.active, m), true);
      AddMetricExact(u, m);
      DropExact(u);
  }

  lemma DropExact(s: State)
    requires RawExact(s)
    ensures RawExact(Drop(s))
  {
  }

  lemma {:induction false} RunExact(s: State, ops: seq<Op>)
    requires Inv(s) && RawExact(s) && forall op :: op in ops ==> Legal(op)
    ensures Buffered(s) && RawExact(Run(s, ops))
    decreases |ops|
  {
    hide Inv, RawExact, Step, Legal;
    InvBuffers(s);
    if |ops| > 0 {
      assert ops[0] in ops;
      StepExact(s, ops[0]);
      StepHolds(s, ops[0]);
      RunExact(Step(s, ops[0]), ops[1..]);
    }
  }

  function RawBytes(gs: seq<Seg>): int {
    if |gs| == 0 then 0
    else
      512 + 224 * (gs[0].eventCap + gs[0].metricCap) + Letters(gs[0].events) + Names(gs[0].metrics) + RawBytes(gs[1..])
  }

  function RollupBytes(gs: seq<Seg>): int {
    if |gs| == 0 then 0 else 512 + 224 * gs[0].metricCap + RollupBytes(gs[1..])
  }

  lemma {:induction false} RawBytesExact(gs: seq<Seg>)
    requires forall g :: g in gs ==> RawTold(g)
    ensures RawBytes(gs) == SumBytes(gs)
  {
    if |gs| > 0 {
      assert gs[0] in gs;
      RawBytesExact(gs[1..]);
    }
  }

  lemma {:induction false} CapacityDoubled(n: nat)
    ensures Capacity(n) == Doubled(4, n)
  {
    if n > 4 {
      CapacityDoubled((n + 1) / 2);
    }
  }

  lemma {:induction false} RollupBytesExact(gs: seq<Seg>)
    requires forall g :: g in gs ==> RollupOk(g)
    ensures RollupBytes(gs) == SumBytes(gs) && forall g :: g in gs ==> RollupTold(g)
  {
    if |gs| > 0 {
      assert gs[0] in gs;
      CapacityDoubled(|gs[0].metrics|);
      RollupBytesExact(gs[1..]);
    }
  }

  lemma BytesExact(s: State)
    requires Inv(s) && RawExact(s)
    ensures s.bytes == RollupBytes(Rollups(s)) + RawBytes(RawSegments(s))
    ensures forall g :: g in Rollups(s) ==> RollupTold(g)
  {
    hide RawTold, RollupTold, RollupOk, RawOk;
    RollupBytesExact(Rollups(s));
    RawBytesExact(RawSegments(s));
    SumBytesAppend(s.sealed, s.active);
    if s.rollupActive.Some? {
      SumBytesAppend(s.rollups, s.rollupActive.value);
    }
  }

  /** Over any run: the bytes are 512 for each segment, 224 for each buffer slot and the strings of
      the raw details and aggregates; every buffer is the least that holds what came; a sealed
      segment is one interval long. */
  lemma RunAccounts(history: nat, max: nat, interval: nat, started: nat, ops: seq<Op>)
    requires SEGMENT_COST <= max && forall op :: op in ops ==> Legal(op)
    ensures Inv(New(history, max, interval, started))
    ensures var r := Run(New(history, max, interval, started), ops);
            RawExact(r) && r.interval == interval && (forall g :: g in Rollups(r) ==> RollupTold(g)) &&
            r.bytes == RollupBytes(Rollups(r)) + RawBytes(RawSegments(r))
  {
    hide Inv, RawExact, Run, Rollups, RawSegments, Legal;
    NewHolds(history, max, interval, started);
    var s := New(history, max, interval, started);
    StartExact(history, max, interval, started);
    RunExact(s, ops);
    RunHolds(s, ops);
    RunInterval(s, ops);
    BytesExact(Run(s, ops));
  }

  lemma StartExact(history: nat, max: nat, interval: nat, started: nat)
    ensures RawExact(New(history, max, interval, started))
  {
  }

  lemma StepInterval(s: State, op: Op)
    requires Buffered(s)
    ensures Step(s, op).interval == s.interval
  {
    hide Advance, FoldUntilFits, EvictUntilFits, EventCost, MetricCost;
    AdvanceFrame(s, op.now);
    match op
    case Tick(_) =>
    case Detail(e, now) =>
      EventOutcome(s, e, now);
      FoldFrame(Advance(s, now), EventCost(Advance(s, now).active, e));
    case Aggregate(m, now) =>
      MetricOutcome(s, m, now);
      var t := Advance(s, now);
      FoldFrame(t, MetricCost(t.active, m));
      EvictFrame(FoldUntilFits(t, MetricCost(t.active, m)), MetricCost(t.active, m));
  }

  lemma {:induction false} RunInterval(s: State, ops: seq<Op>)
    requires Buffered(s)
    ensures Run(s, ops).interval == s.interval
    decreases |ops|
  {
    hide Step;
    if |ops| > 0 {
      StepInterval(s, ops[0]);
      StepKeepsBuffers(s, ops[0]);
      RunInterval(Step(s, ops[0]), ops[1..]);
    }
  }
}
