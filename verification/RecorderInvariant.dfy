/** What every reachable recorder state keeps: byte accounting, timestamp bounds and the
    time order of the tiers. */
module RecorderInvariant {
  import opened Telemetry
  import opened RecorderSpec

  function Strings(es: seq<Event>): nat {
    if |es| == 0 then 0 else Strings(es[..|es| - 1]) + StringCost(es[|es| - 1])
  }

  function Names(ms: seq<Metric>): nat {
    if |ms| == 0 then 0 else Names(ms[..|ms| - 1]) + |ms[|ms| - 1].family|
  }

  /** The charge for a raw segment: its fixed cost, both buffers in full and the strings. */
  function RawCharge(g: Seg): nat {
    SEGMENT_COST + EventBytes(g.eventCap) + MetricBytes(g.metricCap) + Strings(g.events) + Names(g.metrics)
  }

  predicate WithinBounds(g: Seg) {
    (forall e :: e in g.events ==> g.minNS <= e.mono <= g.maxNS) &&
    (forall m :: m in g.metrics ==> g.minNS <= m.start <= m.end <= g.maxNS)
  }

  predicate Sized(g: Seg) {
    |g.events| <= g.eventCap && |g.metrics| <= g.metricCap && (g.metricCap == 0 || g.metricCap >= FIRST_METRICS)
  }

  predicate RawOk(g: Seg, limit: nat) {
    WithinBounds(g) && Sized(g) && g.bytes == RawCharge(g) && g.minNS <= g.start <= g.maxNS <= limit
  }

  /** The least of 0, 4, 8, 16, ... that holds `n` entries. */
  function Capacity(n: nat): (c: nat)
    ensures n <= c
  {
    if n == 0 then 0 else if n <= 4 then 4 else 2 * Capacity((n + 1) / 2)
  }

  /** Doubling a full buffer steps to the next capacity. */
  lemma {:induction false} CapacityNext(n: nat)
    ensures Capacity(n + 1) == if n == Capacity(n) then Max(4, Capacity(n) * 2) else Capacity(n)
  {
    if n > 4 && n % 2 == 0 {
      CapacityNext(n / 2);
    }
  }

  predicate RollupShape(g: Seg) {
    WithinBounds(g) && Sized(g) && g.bytes == SEGMENT_COST + MetricBytes(g.metricCap) &&
    g.metricCap == Capacity(|g.metrics|) &&
    g.events == [] && g.eventCap == 0 && g.start == g.minNS <= g.maxNS == g.end
  }

  predicate RollupOk(g: Seg) {
    RollupShape(g) && |g.metrics| > 0
  }

  predicate Tiers(s: State) {
    RawOk(s.active, s.active.start + s.interval) &&
    (forall g :: g in s.sealed ==> RawOk(g, g.end)) &&
    (forall g :: g in s.rollups ==> RollupOk(g)) &&
    (s.rollupActive.Some? ==> RollupOk(s.rollupActive.value))
  }

  predicate SealedOrder(gs: seq<Seg>) {
    forall i, j :: 0 <= i < j < |gs| ==> gs[i].end <= gs[j].start
  }

  /** Rollups lie before the oldest raw segment, sealed segments before the active one. */
  predicate Ordered(s: State) {
    SealedOrder(s.sealed) &&
    (forall g :: g in s.sealed ==> g.end <= s.active.start) &&
    (forall g :: g in s.rollups ==> g.end <= DetailFrom(s)) &&
    (s.rollupActive.Some? ==> s.rollupActive.value.end <= DetailFrom(s))
  }

  function SumBytes(gs: seq<Seg>): int {
    if |gs| == 0 then 0 else gs[0].bytes + SumBytes(gs[1..])
  }

  function ActiveRollupBytes(s: State): int {
    if s.rollupActive.Some? then s.rollupActive.value.bytes else 0
  }

  /** The sum of all live segment charges. */
  function Charged(s: State): int {
    SumBytes(s.rollups) + ActiveRollupBytes(s) + SumBytes(s.sealed) + s.active.bytes
  }

  predicate Inv(s: State) {
    Tiers(s) && Ordered(s) && s.bytes == Charged(s) && SEGMENT_COST <= s.max && s.active.bytes <= s.max
  }

  lemma {:induction false} SumBytesAppend(gs: seq<Seg>, g: Seg)
    ensures SumBytes(gs + [g]) == SumBytes(gs) + g.bytes
  {
    if |gs| > 0 {
      assert (gs + [g])[1..] == gs[1..] + [g];
      SumBytesAppend(gs[1..], g);
    }
  }

  lemma NewHolds(history: nat, max: nat, interval: nat, now: nat)
    requires SEGMENT_COST <= max
    ensures Inv(New(history, max, interval, now))
  {
  }

  lemma InvBuffers(s: State)
    requires Inv(s)
    ensures Buffered(s)
  {
  }

  // ----- sealing and dropping -----

  /** A segment's end is not part of its charge or bounds. */
  lemma EndIsFree(g: Seg, limit: nat, end: nat)
    requires RawOk(g, limit)
    ensures RawOk(g.(end := end), limit)
  {
    assert RawCharge(g.(end := end)) == RawCharge(g);
  }

  /** Replacing the active segment by one that holds up within the budget. */
  lemma ActiveHolds(s: State, g: Seg)
    requires Inv(s) && g.start == s.active.start && RawOk(g, g.start + s.interval) && g.bytes <= s.max
    ensures Inv(s.(active := g, bytes := s.bytes + g.bytes - s.active.bytes))
  {
    assert DetailFrom(s.(active := g)) == DetailFrom(s);
  }

  lemma FreshOk(now: nat, interval: nat)
    ensures RawOk(Fresh(now), now + interval)
  {
  }

  lemma StartsWithin(g: Seg, limit: nat)
    requires RawOk(g, limit)
    ensures g.start <= limit
  {
  }

  lemma AppendSealedHolds(s: State, g: Seg, now: nat)
    requires Inv(s) && RawOk(g, g.end) && g.bytes == s.active.bytes && g.start == s.active.start && g.end <= now
    ensures Inv(s.(sealed := s.sealed + [g], active := Fresh(now), bytes := s.bytes + SEGMENT_COST))
  {
    hide RawOk, RollupOk;
    StartsWithin(g, g.end);
    var r := s.(sealed := s.sealed + [g], active := Fresh(now), bytes := s.bytes + SEGMENT_COST);
    SumBytesAppend(s.sealed, g);
    FreshOk(now, s.interval);
    forall h | h in r.sealed
      ensures RawOk(h, h.end) && h.end <= now
    {
      assert h in s.sealed || h == g;
    }
    assert DetailFrom(r) == DetailFrom(s);
  }

  lemma SealHolds(s: State, now: nat)
    requires Inv(s) && s.active.start <= now
    ensures Inv(Seal(s, now))
  {
    hide Inv, RawOk;
    ActiveOk(s);
    if now - s.active.start >= s.interval {
      var g := s.active.(end := s.active.start + s.interval);
      EndIsFree(s.active, g.end, g.end);
      AppendSealedHolds(s, g, now);
      assert Seal(s, now) == s.(sealed := s.sealed + [g], active := Fresh(now), bytes := s.bytes + SEGMENT_COST);
    } else {
      EndIsFree(s.active, s.active.start + s.interval, now);
      ActiveHolds(s, s.active.(end := now));
    }
  }

  lemma ActiveOk(s: State)
    requires Inv(s)
    ensures RawOk(s.active, s.active.start + s.interval) && s.active.bytes <= s.max
  {
  }

  lemma DropRawHolds(s: State, memory: bool)
    requires Inv(s) && |s.sealed| > 0
    ensures Inv(DropRaw(s, memory))
  {
    var r := DropRaw(s, memory);
    assert s.sealed[0] in s.sealed;
    assert RawOk(s.sealed[0], s.sealed[0].end);
    assert DetailFrom(s) <= s.sealed[0].end <= DetailFrom(r);
    forall i, j | 0 <= i < j < |r.sealed|
      ensures r.sealed[i].end <= r.sealed[j].start
    {
      assert r.sealed[i] == s.sealed[i + 1] && r.sealed[j] == s.sealed[j + 1];
    }
  }

  lemma DropRollupHolds(s: State, memory: bool)
    requires Inv(s) && HasRollup(s)
    ensures Inv(DropRollup(s, memory))
  {
  }

  // ----- folding -----

  lemma AddToRollupHolds(a: Seg, m: Metric)
    requires RollupShape(a) && m.start <= m.end
    ensures var r := AddToRollup(a, m);
            RollupOk(r) && r.end == Max(a.end, m.end) && r.start == Min(a.start, m.start) && r.bytes >= a.bytes
  {
    var r := AddToRollup(a, m);
    var i := MergeIndex(a.metrics, m);
    CapacityNext(|a.metrics|);
    forall x | x in r.metrics
      ensures r.minNS <= x.start <= x.end <= r.maxNS
    {
      if i < |a.metrics| {
        assert a.metrics[i] in a.metrics;
        var k :| 0 <= k < |r.metrics| && r.metrics[k] == x;
        assert k == i || a.metrics[k] in a.metrics;
      }
    }
  }

  lemma {:induction false} AddAllHolds(a: Seg, ms: seq<Metric>, limit: nat)
    requires RollupShape(a) && a.end <= limit
    requires forall m :: m in ms ==> m.start <= m.end <= limit
    ensures RollupShape(AddAll(a, ms)) && AddAll(a, ms).end <= limit
    ensures |ms| > 0 || |a.metrics| > 0 ==> |AddAll(a, ms).metrics| > 0
    decreases |ms|
  {
    if |ms| > 0 {
      assert ms[0] in ms;
      AddToRollupHolds(a, ms[0]);
      AddAllHolds(AddToRollup(a, ms[0]), ms[1..], limit);
    }
  }

  /** `Inv` while the active rollup may still be empty and rollups may reach up to `limit`. */
  predicate Folding(s: State, limit: nat) {
    RawOk(s.active, s.active.start + s.interval) &&
    (forall g :: g in s.sealed ==> RawOk(g, g.end)) &&
    (forall g :: g in s.rollups ==> RollupOk(g) && g.end <= limit) &&
    SealedOrder(s.sealed) && (forall g :: g in s.sealed ==> g.end <= s.active.start) &&
    limit <= DetailFrom(s) && s.bytes == Charged(s) && SEGMENT_COST <= s.max && s.active.bytes <= s.max
  }

  /** Sealing the active rollup moves it behind the sealed ones. */
  function SealRollup(s: State): State
    requires s.rollupActive.Some?
  {
    s.(rollups := s.rollups + [s.rollupActive.value], rollupActive := None)
  }

  lemma SealRollupHolds(s: State)
    requires Inv(s) && s.rollupActive.Some?
    ensures Inv(SealRollup(s))
  {
    SumBytesAppend(s.rollups, s.rollupActive.value);
  }

  lemma StartRollupHolds(s: State, first: Metric, bucket: nat, limit: nat)
    requires Inv(s) && s.rollupActive.None? && first.start <= first.end <= limit <= DetailFrom(s)
    requires forall g :: g in s.rollups ==> g.end <= limit
    ensures Folding(s.(bucket := bucket, rollupActive := Some(NewRollup(first)),
        bytes := s.bytes + SEGMENT_COST), limit)
    ensures RollupShape(NewRollup(first))
  {
  }

  lemma KeepRollupHolds(s: State, limit: nat)
    requires Inv(s) && s.rollupActive.Some? && limit <= DetailFrom(s)
    requires forall g :: g in s.rollups ==> g.end <= limit
    ensures Folding(s, limit) && RollupShape(s.rollupActive.value)
  {
  }

  lemma OpenRollupHolds(s: State, oldest: Seg)
    requires Inv(s) && RawOk(oldest, oldest.end) && oldest.end <= DetailFrom(s) && |oldest.metrics| > 0
    requires forall g :: g in s.rollups ==> g.end <= oldest.end
    requires s.rollupActive.Some? ==> s.rollupActive.value.end <= oldest.end
    ensures var r := OpenRollup(s, oldest);
            Folding(r, oldest.end) && RollupShape(r.rollupActive.value) && r.rollupActive.value.end <= oldest.end
  {
    hide Inv, Folding, RollupShape, Minute;
    assert oldest.metrics[0] in oldest.metrics;
    var bucket := Minute(oldest.start);
    if s.rollupActive.None? {
      StartRollupHolds(s, oldest.metrics[0], bucket, oldest.end);
    } else if bucket == s.bucket {
      KeepRollupHolds(s, oldest.end);
      assert OpenRollup(s, oldest) == s;
    } else {
      var t := SealRollup(s);
      SealRollupHolds(s);
      StartRollupHolds(t, oldest.metrics[0], bucket, oldest.end);
      OpenSealed(s, oldest);
    }
  }

  lemma OpenSealed(s: State, oldest: Seg)
    requires s.rollupActive.Some? && |oldest.metrics| > 0 && Minute(oldest.start) != s.bucket
    ensures OpenRollup(s, oldest)
         == SealRollup(s).(bucket := Minute(oldest.start), rollupActive := Some(NewRollup(oldest.metrics[0])),
                           bytes := s.bytes + SEGMENT_COST)
  {
  }

  lemma AddMetricsHolds(u: State, ms: seq<Metric>, limit: nat)
    requires u.rollupActive.Some? && Folding(u, limit) && |ms| > 0
    requires RollupShape(u.rollupActive.value) && u.rollupActive.value.end <= limit
    requires forall m :: m in ms ==> m.start <= m.end <= limit
    ensures Inv(AddMetrics(u, ms))
  {
    AddAllHolds(u.rollupActive.value, ms, limit);
    hide AddAll, RollupShape, RawOk;
    var r := AddMetrics(u, ms);
    assert RollupOk(r.rollupActive.value);
    assert Charged(r) == Charged(u) + ActiveRollupBytes(r) - ActiveRollupBytes(u);
  }

  lemma CompactHolds(s: State)
    requires Inv(s) && |s.sealed| > 0
    ensures Inv(CompactOldest(s))
  {
    var oldest := s.sealed[0];
    var t := DropRaw(s, true);
    DropRawHolds(s, true);
    if |oldest.metrics| > 0 {
      assert t.sealed == s.sealed[1..] && t.active == s.active;
      assert oldest in s.sealed && oldest.end <= DetailFrom(t) by { OldestPrecedes(s); }
      OpenRollupHolds(t, oldest);
      AddMetricsHolds(OpenRollup(t, oldest), oldest.metrics, oldest.end);
    }
  }

  lemma OldestPrecedes(s: State)
    requires Inv(s) && |s.sealed| > 0
    ensures RawOk(s.sealed[0], s.sealed[0].end)
    ensures s.sealed[0].start <= s.sealed[0].end <= DetailFrom(DropRaw(s, true))
  {
    assert s.sealed[0] in s.sealed;
  }

  // ----- loops -----

  lemma {:induction false} ExpireSealedHolds(s: State, now: nat)
    requires Inv(s)
    ensures Inv(ExpireSealed(s, now))
    decreases |s.sealed|
  {
    if |s.sealed| > 0 && Aged(s.sealed[0].end, now, s.history) {
      DropRawHolds(s, false);
      ExpireSealedHolds(DropRaw(s, false), now);
    }
  }

  lemma {:induction false} ExpireRollupsHolds(s: State, now: nat)
    requires Inv(s)
    ensures Inv(ExpireRollups(s, now))
    decreases |s.rollups|
  {
    if |s.rollups| > 0 && Aged(s.rollups[0].end, now, s.history) {
      DropRollupHolds(s, false);
      ExpireRollupsHolds(DropRollup(s, false), now);
    }
  }

  lemma ExpireHolds(s: State, now: nat)
    requires Inv(s)
    ensures Inv(Expire(s, now))
  {
    ExpireSealedHolds(s, now);
    ExpireRollupsHolds(ExpireSealed(s, now), now);
    var t := ExpireRollups(ExpireSealed(s, now), now);
    if t.rollupActive.Some? {
      DropRollupHolds(t, false);
    }
  }

  lemma {:induction false} FoldHolds(s: State, cost: nat)
    requires Inv(s)
    ensures Inv(FoldUntilFits(s, cost))
    decreases |s.sealed|
  {
    if s.bytes + cost > s.max && |s.sealed| > 0 {
      CompactHolds(s);
      FoldHolds(CompactOldest(s), cost);
    }
  }

  lemma {:induction false} EvictHolds(s: State, cost: nat)
    requires Inv(s)
    ensures Inv(EvictUntilFits(s, cost))
    decreases RollupCount(s)
  {
    if s.bytes + cost > s.max && HasRollup(s) {
      DropRollupHolds(s, true);
      EvictHolds(DropRollup(s, true), cost);
    }
  }

  lemma AdvanceHolds(s: State, now: nat)
    requires Inv(s)
    ensures Inv(Advance(s, now))
  {
    if now >= s.active.start {
      SealHolds(s, now);
      ExpireHolds(Seal(s, now), now);
      FoldHolds(Expire(Seal(s, now), now), 0);
      EvictHolds(FoldUntilFits(Expire(Seal(s, now), now), 0), 0);
    }
  }

  lemma RoomHolds(s: State, cost: nat, metric: bool)
    requires Inv(s)
    ensures Inv(Room(s, cost, metric)) && Room(s, cost, metric).active == s.active
  {
    FoldHolds(s, cost);
    FoldFrame(s, cost);
    if metric {
      EvictHolds(FoldUntilFits(s, cost), cost);
      EvictFrame(FoldUntilFits(s, cost), cost);
    }
  }

  // ----- accepting -----

  /** After `Advance(s, now)`, timestamps up to `now` belong to the active segment's interval. */
  lemma ActiveReach(s: State, now: nat)
    ensures var t := Advance(s, now); now <= t.active.start + t.interval
  {
    AdvanceFrame(s, now);
  }

  lemma SumNonNegative(gs: seq<Seg>)
    requires forall g :: g in gs ==> g.bytes >= 0
    ensures SumBytes(gs) >= 0
  {
  }

  /** What is charged outside the active segment is never negative. */
  lemma ActiveWithinTotal(s: State)
    requires Inv(s)
    ensures s.active.bytes <= s.bytes
  {
    SumNonNegative(s.rollups);
    SumNonNegative(s.sealed);
  }

  lemma AddEventHolds(s: State, e: Event)
    requires Inv(s) && e.mono <= s.active.start + s.interval
    requires s.bytes + EventCost(s.active, e) <= s.max
    ensures Inv(AddEvent(s, e)) && AddEvent(s, e).bytes <= s.max
  {
    ActiveWithinTotal(s);
    PushEventOk(s, e);
    ActiveHolds(s, AddEvent(s, e).active);
  }

  lemma PushEventOk(s: State, e: Event)
    requires RawOk(s.active, s.active.start + s.interval) && e.mono <= s.active.start + s.interval
    ensures RawOk(AddEvent(s, e).active, s.active.start + s.interval)
  {
    var h := AddEvent(s, e).active;
    assert h.events[..|h.events| - 1] == s.active.events;
  }

  lemma AddMetricHolds(s: State, m: Metric)
    requires Inv(s) && m.start <= m.end <= s.active.start + s.interval
    requires s.bytes + MetricCost(s.active, m) <= s.max
    ensures Inv(AddMetric(s, m)) && AddMetric(s, m).bytes <= s.max
  {
    ActiveWithinTotal(s);
    PushMetricOk(s, m);
    ActiveHolds(s, AddMetric(s, m).active);
    LedgerIsFree(s.(active := AddMetric(s, m).active, bytes := AddMetric(s, m).bytes), AddMetric(s, m).ledger);
  }

  lemma PushMetricOk(s: State, m: Metric)
    requires RawOk(s.active, s.active.start + s.interval) && m.start <= m.end <= s.active.start + s.interval
    ensures RawOk(AddMetric(s, m).active, s.active.start + s.interval)
  {
    var h := AddMetric(s, m).active;
    assert h.metrics[..|h.metrics| - 1] == s.active.metrics;
  }

  lemma LedgerIsFree(s: State, l: Ledger)
    requires Inv(s)
    ensures Inv(s.(ledger := l))
  {
  }

  lemma AcceptEventHolds(s: State, e: Event, now: nat)
    requires Inv(s)
    ensures Inv(AcceptEvent(s, e, now))
  {
    var t := Advance(s, now);
    AdvanceHolds(s, now);
    ActiveReach(s, now);
    if !Late(e, now, t.history) {
      var u := Room(t, EventCost(t.active, e), false);
      RoomHolds(t, EventCost(t.active, e), false);
      FoldFrame(t, EventCost(t.active, e));
      if u.bytes + EventCost(t.active, e) <= u.max {
        AddEventHolds(u, e);
      } else {
        DropHolds(u);
      }
    } else {
      DropHolds(t);
    }
  }

  lemma AcceptMetricHolds(s: State, m: Metric, now: nat)
    requires Inv(s) && m.start <= m.end <= now
    ensures Inv(AcceptMetric(s, m, now))
  {
    var t := Advance(s, now);
    AdvanceHolds(s, now);
    ActiveReach(s, now);
    var cost := MetricCost(t.active, m);
    var u := Room(t, cost, true);
    RoomHolds(t, cost, true);
    FoldFrame(t, cost);
    EvictFrame(FoldUntilFits(t, cost), cost);
    if u.bytes + cost <= u.max {
      AddMetricHolds(u, m);
    } else {
      DropHolds(u);
    }
  }

  lemma DropHolds(s: State)
    requires Inv(s)
    ensures Inv(Drop(s))
  {
  }

  /** Every call the engine makes preserves the invariant. */
  lemma StepHolds(s: State, op: Op)
    requires Inv(s) && Legal(op)
    ensures Inv(Step(s, op))
  {
    match op
    case Tick(now) => AdvanceHolds(s, now);
    case Detail(e, now) => AcceptEventHolds(s, e, now);
    case Aggregate(m, now) => AcceptMetricHolds(s, m, now);
  }

  lemma {:induction false} RunHolds(s: State, ops: seq<Op>)
    requires Inv(s) && forall op :: op in ops ==> Legal(op)
    ensures Inv(Run(s, ops))
    decreases |ops|
  {
    if |ops| > 0 {
      assert ops[0] in ops;
      StepHolds(s, ops[0]);
      RunHolds(Step(s, ops[0]), ops[1..]);
    }
  }
}
