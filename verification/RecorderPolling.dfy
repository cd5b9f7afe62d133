/** Polling keeps the budget: when every offered metric starts where the last one offered for
    its family ended, as the recorder loop's polls do, no call ever leaves the history over
    its budget, whatever is refused on the way. */
module RecorderPolling {
  import opened Telemetry
  import opened RecorderSpec
  import opened RecorderInvariant
  import opened RecorderBudget
  import opened RecorderTips

  // ----- families -----

  lemma {:induction false} AddAllKnown(a: Seg, ms: seq<Metric>)
    requires Known(a.metrics) && Known(ms)
    ensures Known(AddAll(a, ms).metrics)
    decreases |ms|
  {
    if |ms| > 0 {
      var i := MergeIndex(a.metrics, ms[0]);
      assert ms[0] in ms && (i < |a.metrics| ==> a.metrics[i] in a.metrics);
      AddAllKnown(AddToRollup(a, ms[0]), ms[1..]);
    }
  }

  /** Entries of the four known families are counted family by family. */
  lemma {:induction false} TipsCount(ms: seq<Metric>)
    requires Known(ms)
    ensures |ms| == |Tips(ms, Some(BLOCK_IO))| + |Tips(ms, Some(SCHEDULER))| + |Tips(ms, Some(TCP))| +
                    |Tips(ms, Some(OOM))|
  {
    if |ms| > 0 {
      assert ms[|ms| - 1] in ms;
      assert BLOCK_IO[0] != SCHEDULER[0] && TCP[0] != OOM[0] && BLOCK_IO[0] != TCP[0] && BLOCK_IO[0] != OOM[0] &&
             SCHEDULER[0] != TCP[0] && SCHEDULER[0] != OOM[0];
      TipsCount(ms[..|ms| - 1]);
    }
  }

  // ----- what polling keeps -----

  function RollupTips(s: State, f: string): multiset<Tip> {
    if s.rollupActive.Some? then Tips(s.rollupActive.value.metrics, Some(f)) else multiset{}
  }

  /** The entries the family would have if all raw history were folded into the open rollup. */
  function Total(s: State, f: string): multiset<Tip> {
    JoinAll(RollupTips(s, f), RawMetrics(s), Some(f))
  }

  /** The entries a segment's own metrics make. */
  function Own(g: Seg, f: string): multiset<Tip> {
    JoinAll(multiset{}, g.metrics, Some(f))
  }

  /** The active segment alone leaves no room for another metric of the family. */
  predicate Blocked(s: State, f: string)
    requires Buffered(s)
  {
    s.active.bytes + |f| +
      MetricBytes(Grown(|s.active.metrics|, s.active.metricCap, FIRST_METRICS) - s.active.metricCap)
      > s.max
  }

  /** At most one gap lies behind the last end offered, none within a segment; after a refusal
      the active segment takes no more of the family. */
  predicate At(s: State, f: string, last: Option<nat>)
    requires Buffered(s)
  {
    |Total(s, f)| <= 2 && (|Total(s, f)| == 2 ==> last.Some? && (f, last.value) in Total(s, f)) &&
    (forall g :: g in s.sealed ==> |Own(g, f)| <= 1) && |Own(s.active, f)| <= 1 &&
    (|Own(s.active, f)| == 1 ==> (last.Some? && (f, last.value) in Own(s.active, f)) || Blocked(s, f))
  }

  predicate KnownAll(s: State) {
    Known(RawMetrics(s)) && (s.rollupActive.Some? ==> Known(s.rollupActive.value.metrics))
  }

  predicate Polled(s: State, offered: seq<Metric>)
    requires Buffered(s)
  {
    KnownAll(s) && forall f :: f in FAMILIES ==> At(s, f, ChainEnd(offered, f, None))
  }

  /** `r` is `s` with some of the older history folded or gone. */
  ghost predicate Fewer(s: State, r: State) {
    r.active == s.active && r.max == s.max && (KnownAll(s) ==> KnownAll(r)) &&
    (forall g :: g in r.sealed ==> g in s.sealed) && forall f: string :: Total(r, f) <= Total(s, f)
  }

  lemma FewerPolled(s: State, r: State, offered: seq<Metric>)
    requires Buffered(s) && Polled(s, offered) && Fewer(s, r)
    ensures Buffered(r) && Polled(r, offered)
  {
    hide Total, Own, KnownAll, FAMILIES;
    forall f | f in FAMILIES ensures At(r, f, ChainEnd(offered, f, None)) {
      assert At(s, f, ChainEnd(offered, f, None));
      Within(Total(r, f), Total(s, f));
    }
  }

  lemma Within(a: multiset<Tip>, b: multiset<Tip>)
    requires a <= b
    ensures |a| <= |b| && (|a| == |b| ==> a == b)
  {
    assert b == a + (b - a);
  }

  lemma FewerTrans(s: State, t: State, r: State)
    requires Fewer(s, t) && Fewer(t, r)
    ensures Fewer(s, r)
  {
    hide Total, KnownAll;
    forall f: string ensures Total(r, f) <= Total(s, f) {
      assert Total(r, f) <= Total(t, f) <= Total(s, f);
    }
  }

  lemma FewerSelf(s: State)
    ensures Fewer(s, s)
  {
  }

  lemma DropRollupFewer(s: State, memory: bool)
    requires HasRollup(s)
    ensures Fewer(s, DropRollup(s, memory))
  {
    var r := DropRollup(s, memory);
    assert RawMetrics(r) == RawMetrics(s);
    forall f: string ensures Total(r, f) <= Total(s, f) {
      JoinMonotone(RollupTips(r, f), RollupTips(s, f), RawMetrics(s), Some(f));
    }
  }

  lemma {:induction false} EvictFewer(s: State, cost: nat)
    ensures Fewer(s, EvictUntilFits(s, cost))
    decreases RollupCount(s)
  {
    hide Fewer;
    if s.bytes + cost > s.max && HasRollup(s) {
      DropRollupFewer(s, true);
      EvictFewer(DropRollup(s, true), cost);
      FewerTrans(s, DropRollup(s, true), EvictUntilFits(s, cost));
    } else {
      FewerSelf(s);
    }
  }

  lemma {:induction false} ExpireRollupsFewer(s: State, now: nat)
    ensures Fewer(s, ExpireRollups(s, now))
    decreases |s.rollups|
  {
    hide Fewer;
    if |s.rollups| > 0 && Aged(s.rollups[0].end, now, s.history) {
      DropRollupFewer(s, false);
      ExpireRollupsFewer(DropRollup(s, false), now);
      FewerTrans(s, DropRollup(s, false), ExpireRollups(s, now));
    } else {
      FewerSelf(s);
    }
  }

  /** Without rollups, losing the oldest raw segments loses tips. */
  lemma {:induction false} ExpireSealedTotal(s: State, now: nat, f: string)
    ensures JoinAll(multiset{}, RawMetrics(ExpireSealed(s, now)), Some(f)) <= Total(s, f)
    ensures Known(RawMetrics(s)) ==> Known(RawMetrics(ExpireSealed(s, now)))
    decreases |s.sealed|
  {
    JoinMonotone(multiset{}, RollupTips(s, f), RawMetrics(s), Some(f));
    if |s.sealed| > 0 && Aged(s.sealed[0].end, now, s.history) {
      var t, ms := DropRaw(s, false), s.sealed[0].metrics;
      assert RawMetrics(s) == ms + RawMetrics(t);
      ExpireSealedTotal(t.(rollupActive := None), now, f);
      SameSealed(t, now);
      JoinConcat(RollupTips(s, f), ms, RawMetrics(t), Some(f));
      JoinMonotone(multiset{}, JoinAll(RollupTips(s, f), ms, Some(f)), RawMetrics(t), Some(f));
    }
  }

  lemma {:induction false} SameSealed(s: State, now: nat)
    ensures RawMetrics(ExpireSealed(s.(rollupActive := None), now)) == RawMetrics(ExpireSealed(s, now))
    decreases |s.sealed|
  {
    if |s.sealed| > 0 && Aged(s.sealed[0].end, now, s.history) {
      assert DropRaw(s.(rollupActive := None), false) == DropRaw(s, false).(rollupActive := None);
      SameSealed(DropRaw(s, false), now);
    }
  }

  lemma ExpireFewer(s: State, now: nat)
    requires Inv(s)
    ensures Fewer(s, Expire(s, now))
  {
    if |s.sealed| == 0 || !Aged(s.sealed[0].end, now, s.history) {
      hide Fewer;
      var b := ExpireRollups(s, now);
      ExpireRollupsFewer(s, now);
      if b.rollupActive.Some? && Aged(b.rollupActive.value.end, now, b.history) {
        DropRollupFewer(b, false);
        FewerTrans(s, b, DropRollup(b, false));
      }
    } else {
      var r := Expire(s, now);
      ExpireEverythingOlder(s, now);
      ExpireSealedFrame(s, now);
      ExpireRollupsFrame(ExpireSealed(s, now), now);
      forall f: string ensures Total(r, f) <= Total(s, f) {
        ExpireSealedTotal(s, now, f);
      }
      ExpireSealedTotal(s, now, "");
    }
  }

  // ----- folding -----

  /** Folding the oldest segment makes no family end that was not counted. */
  lemma CompactFewer(s: State)
    requires |s.sealed| > 0
    ensures Fewer(s, CompactOldest(s))
  {
    var g, t, r := s.sealed[0], DropRaw(s, true), CompactOldest(s);
    assert RawMetrics(s) == g.metrics + RawMetrics(t);
    if |g.metrics| == 0 {
      assert RawMetrics(t) == RawMetrics(s);
    } else {
      var u := OpenRollup(t, g);
      assert RawMetrics(r) == RawMetrics(t);
      if KnownAll(s) {
        AddAllKnown(u.rollupActive.value, g.metrics);
      }
      forall f: string ensures Total(r, f) <= Total(s, f) {
        CompactTotal(s, f);
      }
    }
  }

  lemma CompactTotal(s: State, f: string)
    requires |s.sealed| > 0 && |s.sealed[0].metrics| > 0
    ensures Total(CompactOldest(s), f) <= Total(s, f)
    ensures var u := OpenRollup(DropRaw(s, true), s.sealed[0]);
            RollupTips(CompactOldest(s), f) == JoinAll(RollupTips(u, f), s.sealed[0].metrics, Some(f)) &&
            (|RollupTips(u, f)| == 0 || u.rollupActive == s.rollupActive) &&
            (u.rollupActive == s.rollupActive ==> |RollupTips(CompactOldest(s), f)| <= |Total(s, f)|)
  {
    hide Minute;
    var g, t := s.sealed[0], DropRaw(s, true);
    var u := OpenRollup(t, g);
    assert RawMetrics(s) == g.metrics + RawMetrics(t) && RawMetrics(CompactOldest(s)) == RawMetrics(t);
    AddAllTips(u.rollupActive.value, g.metrics, Some(f));
    JoinConcat(RollupTips(u, f), g.metrics, RawMetrics(t), Some(f));
    JoinMonotone(RollupTips(u, f), RollupTips(s, f), RawMetrics(s), Some(f));
    JoinGrows(JoinAll(RollupTips(u, f), g.metrics, Some(f)), RawMetrics(t), Some(f));
  }

  /** A segment frees its fixed charge and four metric slots; a rollup of one segment has at most
      four entries and any open rollup at most eight, so folding costs no more than it frees. */
  lemma CompactFrees(s: State, offered: seq<Metric>)
    requires Inv(s) && Buffered(s) && Polled(s, offered) && |s.sealed| > 0
    ensures CompactOldest(s).bytes <= s.bytes
  {
    hide Minute, FAMILIES, Total, At;
    var g, t := s.sealed[0], DropRaw(s, true);
    assert g in s.sealed;
    if |g.metrics| > 0 {
      OldestPrecedes(s);
      DropRawHolds(s, true);
      OpenRollupHolds(t, g);
      var u := OpenRollup(t, g);
      var a := u.rollupActive.value;
      AddAllHolds(a, g.metrics, g.end);
      EntriesAfter(s, offered);
      hide AddAll;
      SmallCapacity(|a.metrics|);
      SmallCapacity(|AddAll(a, g.metrics).metrics|);
    }
  }

  lemma SmallCapacity(n: nat)
    ensures n == 0 ==> Capacity(n) == 0
    ensures 1 <= n <= 4 ==> Capacity(n) == 4
    ensures 5 <= n <= 8 ==> Capacity(n) == 8
    ensures n >= 1 ==> Capacity(n) >= 4
  {
  }

  /** How many entries the rollup holds after the next fold. */
  lemma EntriesAfter(s: State, offered: seq<Metric>)
    requires Buffered(s) && Polled(s, offered) && |s.sealed| > 0 && |s.sealed[0].metrics| > 0
    ensures var u := OpenRollup(DropRaw(s, true), s.sealed[0]);
            var n := |AddAll(u.rollupActive.value, s.sealed[0].metrics).metrics|;
            if u.rollupActive == s.rollupActive then n <= 8 else |u.rollupActive.value.metrics| == 0 && n <= 4
  {
    var g, r := s.sealed[0], CompactOldest(s);
    var u := OpenRollup(DropRaw(s, true), g);
    CompactFewer(s);
    var ms := r.rollupActive.value.metrics;
    TipsCount(ms);
    forall f | f in FAMILIES
      ensures |Tips(ms, Some(f))| <= if u.rollupActive == s.rollupActive then 2 else 1
    {
      assert At(s, f, ChainEnd(offered, f, None));
      assert g in s.sealed && |Own(g, f)| <= 1;
      CompactTotal(s, f);
      hide Total, Own, JoinAll, CompactOldest;
      assert |RollupTips(u, f)| == 0 ==> RollupTips(u, f) == multiset{};
    }
    assert BLOCK_IO in FAMILIES && SCHEDULER in FAMILIES && TCP in FAMILIES && OOM in FAMILIES;
  }

  lemma {:induction false} FoldPolled(s: State, cost: nat, offered: seq<Metric>)
    requires Inv(s) && Buffered(s) && Polled(s, offered)
    ensures var r := FoldUntilFits(s, cost); Buffered(r) && Polled(r, offered) && r.bytes <= s.bytes
    decreases |s.sealed|
  {
    hide Polled, Fewer, Inv;
    if s.bytes + cost > s.max && |s.sealed| > 0 {
      CompactFewer(s);
      CompactFrees(s, offered);
      CompactHolds(s);
      FewerPolled(s, CompactOldest(s), offered);
      FoldPolled(CompactOldest(s), cost, offered);
    }
  }

  // ----- calls -----

  /** Replacing the active segment by an empty one, or one with the same metrics and as little room. */
  lemma ActiveAt(s: State, r: State, f: string, last: Option<nat>)
    requires Buffered(s) && Buffered(r) && At(s, f, last) && RawMetrics(r) == RawMetrics(s)
    requires r.rollupActive == s.rollupActive
    requires forall g :: g in r.sealed ==> g in s.sealed || g.metrics == s.active.metrics
    requires |r.active.metrics| == 0 ||
             (r.active.metrics == s.active.metrics && (Blocked(s, f) ==> Blocked(r, f)))
    ensures At(r, f, last)
  {
    hide JoinAll, Blocked, RawMetrics;
    assert Total(r, f) == Total(s, f);
    assert forall g: Seg :: g.metrics == s.active.metrics ==> Own(g, f) == Own(s.active, f);
    EmptyOwn(r.active, f);
  }

  lemma EmptyOwn(g: Seg, f: string)
    ensures |g.metrics| == 0 ==> Own(g, f) == multiset{}
  {
  }

  lemma SealPolled(s: State, now: nat, offered: seq<Metric>)
    requires Buffered(s) && Polled(s, offered) && s.active.start <= now
    ensures Buffered(Seal(s, now)) && Polled(Seal(s, now), offered)
  {
    hide FAMILIES, At, Total;
    var r, g := Seal(s, now), s.active.(end := s.active.start + s.interval);
    MetricsOfAppend(s.sealed, g);
    assert RawMetrics(r) == RawMetrics(s);
    forall f | f in FAMILIES ensures At(r, f, ChainEnd(offered, f, None)) {
      ActiveAt(s, r, f, ChainEnd(offered, f, None));
    }
  }

  lemma AdvancePolled(s: State, now: nat, offered: seq<Metric>)
    requires Inv(s) && Buffered(s) && Polled(s, offered)
    ensures Buffered(Advance(s, now)) && Polled(Advance(s, now), offered)
  {
    hide Polled, Inv, Fewer, Seal, Expire;
    if now >= s.active.start {
      var a := Seal(s, now);
      SealHolds(s, now);
      SealPolled(s, now, offered);
      ExpireHolds(a, now);
      ExpireFewer(a, now);
      var b := Expire(a, now);
      FewerPolled(a, b, offered);
      FoldPolled(b, 0, offered);
      EvictFewer(FoldUntilFits(b, 0), 0);
      FewerPolled(FoldUntilFits(b, 0), EvictUntilFits(FoldUntilFits(b, 0), 0), offered);
    }
  }

  /** A larger charge for the same metrics blocks no less. */
  lemma EventKeepsPolled(s: State, e: Event, offered: seq<Metric>)
    requires Buffered(s) && Polled(s, offered)
    ensures Buffered(AddEvent(s, e)) && Polled(AddEvent(s, e), offered)
  {
    hide FAMILIES, At, Total;
    var r := AddEvent(s, e);
    assert RawMetrics(r) == RawMetrics(s);
    forall f | f in FAMILIES ensures At(r, f, ChainEnd(offered, f, None)) {
      ActiveAt(s, r, f, ChainEnd(offered, f, None));
    }
  }

  lemma DropPolled(s: State, offered: seq<Metric>)
    requires Buffered(s) && Polled(s, offered)
    ensures Buffered(Drop(s)) && Polled(Drop(s), offered)
  {
    FewerPolled(s, Drop(s), offered);
  }

  lemma EventPolled(s: State, e: Event, now: nat, offered: seq<Metric>)
    requires Inv(s) && Buffered(s) && Polled(s, offered) && s.bytes <= s.max
    ensures var r := AcceptEvent(s, e, now); Buffered(r) && Polled(r, offered) && r.bytes <= r.max
  {
    hide Polled, Inv;
    AdvanceHolds(s, now);
    AdvancePolled(s, now, offered);
    AdvanceFits(s, now);
    AdvanceFrame(s, now);
    var t := Advance(s, now);
    var cost := EventCost(t.active, e);
    FoldFrame(t, cost);
    FoldPolled(t, cost, offered);
    var u := Room(t, cost, false);
    DropPolled(t, offered);
    DropPolled(u, offered);
    EventKeepsPolled(u, e, offered);
  }

  /** With everything else gone, each family has at most the active segment's one entry. */
  lemma OnlyActive(s: State, f: string)
    requires |s.sealed| == 0 && !HasRollup(s)
    ensures Total(s, f) == Own(s.active, f)
  {
    assert RawMetrics(s) == s.active.metrics;
  }

  /** A refused metric has driven out everything but the active segment, and stays refused. */
  lemma RefusePolled(s: State, m: Metric, offered: seq<Metric>)
    requires Inv(s) && Buffered(s) && Polled(s, offered) && |s.sealed| == 0 && !HasRollup(s)
    requires m.family in FAMILIES && s.bytes + MetricCost(s.active, m) > s.max
    ensures Polled(s, offered + [m]) && Polled(Drop(s), offered + [m])
  {
    hide FAMILIES;
    assert s.bytes == s.active.bytes;
    forall f | f in FAMILIES ensures At(s, f, ChainEnd(offered + [m], f, None)) {
      assert At(s, f, ChainEnd(offered, f, None));
      LastEnd(offered, m, f);
      OnlyActive(s, f);
      hide Total, Own, Inv, ChainEnd;
    }
    DropPolled(s, offered + [m]);
  }

  lemma LastEnd(offered: seq<Metric>, m: Metric, f: string)
    ensures ChainEnd(offered + [m], f, None) == if m.family == f then Some(m.end) else ChainEnd(offered, f, None)
    ensures Chain(offered + [m], f, None) && m.family == f && ChainEnd(offered, f, None).Some? ==>
              m.start == ChainEnd(offered, f, None).value
  {
    ChainConcat(offered, [m], f, None);
  }

  /** An accepted metric continues its family where the last one offered ended. */
  lemma AcceptPolled(s: State, m: Metric, offered: seq<Metric>)
    requires Inv(s) && Buffered(s) && Polled(s, offered) && m.family in FAMILIES
    requires s.bytes + MetricCost(s.active, m) <= s.max && Chain(offered + [m], m.family, None)
    ensures Buffered(AddMetric(s, m)) && Polled(AddMetric(s, m), offered + [m])
  {
    hide FAMILIES, At;
    var r := AddMetric(s, m);
    assert RawMetrics(r) == RawMetrics(s) + [m];
    ActiveWithinTotal(s);
    forall f | f in FAMILIES ensures At(r, f, ChainEnd(offered + [m], f, None)) {
      assert At(s, f, ChainEnd(offered, f, None));
      LastEnd(offered, m, f);
      AddMetricLinks(s, m, f);
      AcceptAt(s, m, f, ChainEnd(offered, f, None));
    }
  }

  lemma AddMetricLinks(s: State, m: Metric, f: string)
    requires Buffered(s)
    ensures Total(AddMetric(s, m), f) == Join(Total(s, f), m, Some(f))
    ensures Own(AddMetric(s, m).active, f) == Join(Own(s.active, f), m, Some(f))
  {
    hide Tips, JoinAll, Join;
    assert RawMetrics(AddMetric(s, m)) == RawMetrics(s) + [m];
    Appended(RollupTips(s, f), RawMetrics(s), m, f);
    Appended(multiset{}, s.active.metrics, m, f);
  }

  lemma Appended(tips: multiset<Tip>, ms: seq<Metric>, m: Metric, f: string)
    ensures JoinAll(tips, ms + [m], Some(f)) == Join(JoinAll(tips, ms, Some(f)), m, Some(f))
  {
    JoinConcat(tips, ms, [m], Some(f));
    assert [m][1..] == [];
  }

  lemma AcceptAt(s: State, m: Metric, f: string, last: Option<nat>)
    requires Buffered(s) && At(s, f, last) && s.active.bytes + MetricCost(s.active, m) <= s.max
    requires m.family == f && last.Some? ==> m.start == last.value
    requires Total(AddMetric(s, m), f) == Join(Total(s, f), m, Some(f))
    requires Own(AddMetric(s, m).active, f) == Join(Own(s.active, f), m, Some(f))
    ensures At(AddMetric(s, m), f, if m.family == f then Some(m.end) else last)
  {
    hide Total, Own;
    if m.family == f {
      Linked(Total(s, f), m, f);
      Linked(Own(s.active, f), m, f);
    } else {
      StillBlocked(s, m, f);
    }
  }

  /** What a metric takes for its own family it takes from every other. */
  lemma StillBlocked(s: State, m: Metric, f: string)
    requires Buffered(s)
    ensures Blocked(s, f) ==> Blocked(AddMetric(s, m), f)
  {
  }

  lemma Linked(tips: multiset<Tip>, m: Metric, f: string)
    requires m.family == f
    ensures (f, m.end) in Join(tips, m, Some(f))
    ensures |Join(tips, m, Some(f))| == |tips| + if (f, m.start) in tips then 0 else 1
  {
  }

  lemma MetricPolled(s: State, m: Metric, now: nat, offered: seq<Metric>)
    requires Inv(s) && Buffered(s) && Polled(s, offered) && Contiguous(offered + [m])
    ensures Buffered(AcceptMetric(s, m, now)) && Polled(AcceptMetric(s, m, now), offered + [m])
  {
    hide Polled, Inv, FAMILIES;
    AdvanceHolds(s, now);
    AdvancePolled(s, now, offered);
    var t := Advance(s, now);
    var cost := MetricCost(t.active, m);
    FoldPolled(t, cost, offered);
    var a := FoldUntilFits(t, cost);
    EvictFewer(a, cost);
    FewerPolled(a, EvictUntilFits(a, cost), offered);
    RoomHolds(t, cost, true);
    MakeRoomFits(t, cost);
    FoldFrame(t, cost);
    EvictFrame(a, cost);
    var u := Room(t, cost, true);
    assert m in offered + [m];
    if u.bytes + cost <= u.max {
      AcceptPolled(u, m, offered);
    } else {
      RefusePolled(u, m, offered);
    }
  }

  // ----- runs -----

  lemma StepPolled(s: State, op: Op, offered: seq<Metric>)
    requires Inv(s) && Buffered(s) && Polled(s, offered) && s.bytes <= s.max && Legal(op)
    requires op.Aggregate? ==> Contiguous(offered + [op.metric])
    ensures var r := Step(s, op);
            Buffered(r) && Polled(r, if op.Aggregate? then offered + [op.metric] else offered) && r.bytes <= r.max
  {
    hide Polled, Inv, Contiguous;
    StepFits(s, op);
    match op
    case Tick(now) => AdvancePolled(s, now, offered); AdvanceFits(s, now);
    case Detail(e, now) => EventPolled(s, e, now, offered);
    case Aggregate(m, now) => MetricPolled(s, m, now, offered);
  }

  lemma {:induction false} RunPolled(s: State, ops: seq<Op>, offered: seq<Metric>)
    requires Inv(s) && Buffered(s) && Polled(s, offered) && s.bytes <= s.max && forall op :: op in ops ==> Legal(op)
    requires Contiguous(offered + Offered(ops))
    ensures Run(s, ops).bytes <= Run(s, ops).max
    decreases |ops|
  {
    hide Polled, Inv, Contiguous;
    if |ops| > 0 {
      assert ops[0] in ops;
      var next := if ops[0].Aggregate? then offered + [ops[0].metric] else offered;
      assert next + Offered(ops[1..]) == offered + Offered(ops);
      ContiguousPrefix(next, offered + Offered(ops));
      StepHolds(s, ops[0]);
      StepPolled(s, ops[0], offered);
      RunPolled(Step(s, ops[0]), ops[1..], next);
    }
  }

  lemma NewPolled(history: nat, max: nat, interval: nat, started: nat)
    ensures Buffered(New(history, max, interval, started)) && Polled(New(history, max, interval, started), [])
  {
    var s := New(history, max, interval, started);
    assert RawMetrics(s) == [];
  }

  /** Whatever the sensors report, whatever is refused and whatever the clock does: if each metric
      offered starts where the last one offered for its family ended, the history is within its
      budget after every call. */
  lemma PollingWithinBudget(history: nat, max: nat, interval: nat, started: nat, ops: seq<Op>)
    requires SEGMENT_COST <= max && forall op :: op in ops ==> Legal(op)
    requires Contiguous(Offered(ops))
    ensures var r := Run(New(history, max, interval, started), ops); r.bytes <= r.max == max
  {
    var s := New(history, max, interval, started);
    NewHolds(history, max, interval, started);
    NewPolled(history, max, interval, started);
    assert [] + Offered(ops) == Offered(ops);
    RunPolled(s, ops, []);
    RunKeepsMax(s, ops);
  }

  lemma {:induction false} RunKeepsMax(s: State, ops: seq<Op>)
    requires Inv(s) && forall op :: op in ops ==> Legal(op)
    ensures Buffered(s) && Run(s, ops).max == s.max
    decreases |ops|
  {
    hide Inv;
    InvBuffers(s);
    if |ops| > 0 {
      assert ops[0] in ops;
      StepHolds(s, ops[0]);
      StepFits(s, ops[0]);
      RunKeepsMax(Step(s, ops[0]), ops[1..]);
    }
  }
}
