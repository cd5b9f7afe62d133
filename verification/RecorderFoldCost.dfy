/** What a fold costs, counted from the history before it, and exactly when an event leaves
    the recorder over its budget. */
module RecorderFoldCost {
  import opened Telemetry
  import opened RecorderSpec
  import opened RecorderInvariant
  import opened RecorderBudget
  import opened RecorderTips

  // ----- how many entries a fold adds -----

  /** The metrics that continue nothing before them. */
  function Gaps(tips: multiset<Tip>, ms: seq<Metric>): nat
    decreases |ms|
  {
    if |ms| == 0 then 0
    else (if (ms[0].family, ms[0].start) in tips then 0 else 1) + Gaps(Join(tips, ms[0], None), ms[1..])
  }

  lemma {:induction false} JoinCounts(tips: multiset<Tip>, ms: seq<Metric>)
    ensures |JoinAll(tips, ms, None)| == |tips| + Gaps(tips, ms)
    decreases |ms|
  {
    if |ms| > 0 {
      JoinCounts(Join(tips, ms[0], None), ms[1..]);
    }
  }

  lemma RollupEntries(a: Seg, ms: seq<Metric>)
    ensures |AddAll(a, ms).metrics| == |a.metrics| + Gaps(Tips(a.metrics, None), ms)
  {
    TipPerEntry(a.metrics);
    TipPerEntry(AddAll(a, ms).metrics);
    JoinCounts(Tips(a.metrics, None), ms);
    AddAllTips(a, ms, None);
  }

  // ----- what one fold costs -----

  /** All a fold reads of the mutable rollup: its minute and the tips of its entries. */
  datatype Shape = Shape(bucket: nat, tips: Option<multiset<Tip>>)

  function ShapeOf(s: State): Shape {
    Shape(s.bucket, if s.rollupActive.Some? then Some(Tips(s.rollupActive.value.metrics, None)) else None)
  }

  /** Folding the segment opens a rollup of its own minute. */
  predicate Opens(h: Shape, g: Seg) {
    h.tips.None? || Minute(g.start) != h.bucket
  }

  function TipsBefore(h: Shape, g: Seg): multiset<Tip> {
    if Opens(h, g) then multiset{} else h.tips.value
  }

  /** Bytes charged for folding: a rollup if one is opened, and the entries' buffer growth. */
  function Charge(h: Shape, g: Seg): int {
    if |g.metrics| == 0 then 0
    else
      var n := |TipsBefore(h, g)|;
      (if Opens(h, g) then SEGMENT_COST else 0) +
      MetricBytes(Capacity(n + Gaps(TipsBefore(h, g), g.metrics)) - Capacity(n))
  }

  function Reshaped(h: Shape, g: Seg): Shape {
    if |g.metrics| == 0 then h
    else Shape(if Opens(h, g) then Minute(g.start) else h.bucket, Some(JoinAll(TipsBefore(h, g), g.metrics, None)))
  }

  /** What folding these segments, oldest first, adds to the bytes. */
  function Growth(h: Shape, gs: seq<Seg>): int
    decreases |gs|
  {
    if |gs| == 0 then 0 else Charge(h, gs[0]) - gs[0].bytes + Growth(Reshaped(h, gs[0]), gs[1..])
  }

  lemma CompactCost(s: State)
    requires Inv(s) && |s.sealed| > 0
    ensures CompactOldest(s).bytes == s.bytes + Charge(ShapeOf(s), s.sealed[0]) - s.sealed[0].bytes
    ensures ShapeOf(CompactOldest(s)) == Reshaped(ShapeOf(s), s.sealed[0])
  {
    var oldest, t := s.sealed[0], DropRaw(s, true);
    if |oldest.metrics| > 0 {
      OldestPrecedes(s);
      DropRawHolds(s, true);
      OpenRollupHolds(t, oldest);
      AddMetricsCost(s, OpenRollup(t, oldest));
    }
  }

  lemma AddMetricsCost(s: State, u: State)
    requires |s.sealed| > 0 && |s.sealed[0].metrics| > 0 && u == OpenRollup(DropRaw(s, true), s.sealed[0])
    requires RollupShape(u.rollupActive.value) && forall m :: m in s.sealed[0].metrics ==> m.start <= m.end
    ensures var r, h, g := AddMetrics(u, s.sealed[0].metrics), ShapeOf(s), s.sealed[0];
            r.bytes == s.bytes + Charge(h, g) - g.bytes && ShapeOf(r) == Reshaped(h, g)
  {
    hide Minute, RollupShape, Capacity, OpenRollup, DropRaw, AddAll, Tips, JoinAll, Gaps, TipsBefore, Opens;
    AddAllCost(u.rollupActive.value, s.sealed[0].metrics);
    AddAllTips(u.rollupActive.value, s.sealed[0].metrics, None);
    TipPerEntry(u.rollupActive.value.metrics);
    Opened(s);
  }

  /** What opening the rollup changes. */
  lemma Opened(s: State)
    requires |s.sealed| > 0 && |s.sealed[0].metrics| > 0
    ensures var u, h, g := OpenRollup(DropRaw(s, true), s.sealed[0]), ShapeOf(s), s.sealed[0];
            Tips(u.rollupActive.value.metrics, None) == TipsBefore(h, g) &&
            u.bytes == s.bytes - g.bytes + (if Opens(h, g) then SEGMENT_COST else 0) &&
            u.bucket == if Opens(h, g) then Minute(g.start) else h.bucket
  {
    hide Minute;
  }

  lemma AddAllCost(a: Seg, ms: seq<Metric>)
    requires RollupShape(a) && forall m :: m in ms ==> m.start <= m.end
    ensures AddAll(a, ms).bytes - a.bytes ==
              MetricBytes(Capacity(|a.metrics| + Gaps(Tips(a.metrics, None), ms)) - Capacity(|a.metrics|))
  {
    hide WithinBounds, Capacity, AddAll, Gaps, Tips;
    AddAllHolds(a, ms, ReachOf(ms, a.end));
    RollupEntries(a, ms);
  }

  /** A bound on the ends of some metrics. */
  function ReachOf(ms: seq<Metric>, end: nat): (r: nat)
    ensures end <= r && forall m :: m in ms ==> m.end <= r
  {
    if |ms| == 0 then end else Max(ms[0].end, ReachOf(ms[1..], end))
  }

  /** A fold grows the history exactly when the rollup it may open and the doubling of its
      buffer cost more than the folded segment was charged for. */
  lemma FoldGrowsExactly(s: State)
    requires Inv(s) && |s.sealed| > 0
    ensures var g := s.sealed[0];
            var before := TipsBefore(ShapeOf(s), g);
            CompactOldest(s).bytes > s.bytes <==>
              |g.metrics| > 0 &&
              (if Opens(ShapeOf(s), g) then SEGMENT_COST else 0) +
              224 * (Capacity(|before| + Gaps(before, g.metrics)) - Capacity(|before|)) > g.bytes
  {
    hide Inv, Capacity, Gaps, TipsBefore, Opens, ShapeOf, CompactOldest, Reshaped;
    CompactCost(s);
    OldestCharged(s);
  }

  lemma OldestCharged(s: State)
    requires Inv(s) && |s.sealed| > 0
    ensures s.sealed[0].bytes >= SEGMENT_COST + MetricBytes(s.sealed[0].metricCap)
  {
    assert s.sealed[0] in s.sealed;
  }

  // ----- folding until it fits -----

  /** Some number of folds makes room for `cost` more bytes. */
  predicate RoomByFolding(s: State, cost: nat) {
    exists k :: 0 <= k <= |s.sealed| && s.bytes + Growth(ShapeOf(s), s.sealed[..k]) + cost <= s.max
  }

  lemma GrowthNext(h: Shape, gs: seq<Seg>, k: nat)
    requires 0 < k <= |gs|
    ensures Growth(h, gs[..k]) == Charge(h, gs[0]) - gs[0].bytes + Growth(Reshaped(h, gs[0]), gs[1..][..k - 1])
  {
    assert gs[..k][1..] == gs[1..][..k - 1];
  }

  lemma RoomNext(s: State, cost: nat)
    requires Inv(s) && |s.sealed| > 0 && s.bytes + cost > s.max
    ensures RoomByFolding(s, cost) <==> RoomByFolding(CompactOldest(s), cost)
  {
    hide Reshaped, Charge, Inv;
    var t := CompactOldest(s);
    CompactCost(s);
    if k :| 0 <= k <= |s.sealed| && s.bytes + Growth(ShapeOf(s), s.sealed[..k]) + cost <= s.max {
      assert k > 0;
      GrowthNext(ShapeOf(s), s.sealed, k);
      assert t.bytes + Growth(ShapeOf(t), t.sealed[..k - 1]) + cost <= t.max;
    }
    if k :| 0 <= k <= |t.sealed| && t.bytes + Growth(ShapeOf(t), t.sealed[..k]) + cost <= t.max {
      GrowthNext(ShapeOf(s), s.sealed, k + 1);
      assert s.bytes + Growth(ShapeOf(s), s.sealed[..k + 1]) + cost <= s.max;
    }
  }

  /** Folding until it fits ends within budget exactly when some number of folds fits, and
      otherwise with every segment folded. */
  lemma {:induction false} FoldUntilExactly(s: State, cost: nat)
    requires Inv(s)
    ensures var r := FoldUntilFits(s, cost);
            (r.bytes + cost <= s.max <==> RoomByFolding(s, cost)) &&
            (r.bytes + cost > s.max ==> r.bytes == s.bytes + Growth(ShapeOf(s), s.sealed))
    decreases |s.sealed|
  {
    hide Reshaped, Charge, Inv;
    if s.bytes + cost <= s.max {
      assert s.sealed[..0] == [] && Growth(ShapeOf(s), []) == 0;
    } else if |s.sealed| == 0 {
      assert s.sealed == [];
      assert forall k :: 0 <= k <= |s.sealed| ==> s.sealed[..k] == [];
    } else {
      CompactCost(s);
      CompactHolds(s);
      RoomNext(s, cost);
      FoldUntilExactly(CompactOldest(s), cost);
      GrowthNext(ShapeOf(s), s.sealed, |s.sealed|);
      assert s.sealed[..|s.sealed|] == s.sealed && s.sealed[1..][..|s.sealed| - 1] == s.sealed[1..];
    }
  }

  /** An event leaves the history over its budget exactly when it is not late, no number of
      folds makes room for it, and folding everything costs more than it frees allows. All of
      it is arithmetic on the history the event finds. */
  lemma EventFitsExactly(s: State, e: Event, now: nat)
    requires Inv(s) && now >= s.active.start
    ensures Buffered(s) && Buffered(Advance(s, now))
    ensures var t := Advance(s, now);
            AcceptEvent(s, e, now).bytes <= s.max <==>
              Late(e, now, t.history) || RoomByFolding(t, EventCost(t.active, e)) ||
              t.bytes + Growth(ShapeOf(t), t.sealed) <= t.max
  {
    hide Growth, ShapeOf, RoomByFolding, Inv;
    InvBuffers(s);
    AdvanceKeepsBuffers(s, now);
    AdvanceHolds(s, now);
    AdvanceFits(s, now);
    var t := Advance(s, now);
    var cost := EventCost(t.active, e);
    FoldFrame(t, cost);
    FoldUntilExactly(t, cost);
  }
}
