/** The rolling recorder on values: what each operation of the recorder does to its
    history. `Recorder` (in Recorder.dfy) carries these steps out on shared arrays. */
module RecorderSpec {
  import opened Telemetry

  const SEGMENT_COST: nat := 512
  const FIRST_EVENTS: nat := 64
  const FIRST_METRICS: nat := 4

  /** The one-minute bucket of a timestamp. */
  function Minute(ns: nat): nat {
    ns / 60_000_000_000
  }

  // Buffered events and metrics are 224 bytes each on a 64-bit platform.
  function EventBytes(slots: int): int {
    224 * slots
  }

  function MetricBytes(slots: int): int {
    224 * slots
  }

  /** A retained stretch of history: buffers with their capacities, the bytes charged
      for it and the extreme timestamps of what it holds. */
  datatype Seg = Seg(start: nat, end: nat, events: seq<Event>, eventCap: nat,
                     metrics: seq<Metric>, metricCap: nat, bytes: int, minNS: nat, maxNS: nat)

  /** History variables: every metric accepted, lost to age and lost to memory so far. */
  datatype Ledger = Ledger(accepted: seq<Metric>, expired: seq<Metric>, evicted: seq<Metric>)

  datatype State = State(started: nat, interval: nat, history: nat, max: nat, bytes: int,
                         rollups: seq<Seg>, rollupActive: Option<Seg>, bucket: nat,
                         sealed: seq<Seg>, active: Seg,
                         drops: nat, evictions: nat, aggregateEvictions: nat, ledger: Ledger)

  // ----- opening and time expiry -----

  function Fresh(now: nat): Seg {
    Seg(now, now, [], 0, [], 0, SEGMENT_COST, now, now)
  }

  function New(history: nat, max: nat, interval: nat, now: nat): State {
    State(now, interval, history, max, SEGMENT_COST, [], None, 0, [], Fresh(now), 0, 0, 0, Ledger([], [], []))
  }

  function Seal(s: State, now: nat): State
    requires s.active.start <= now
  {
    var t := if now - s.active.start >= s.interval then
               s.(sealed := s.sealed + [s.active.(end := s.active.start + s.interval)],
                  active := Fresh(now), bytes := s.bytes + SEGMENT_COST)
             else s;
    t.(active := t.active.(end := now))
  }

  predicate Aged(end: nat, now: nat, history: nat) {
    now >= end && now - end >= history
  }

  function DropRaw(s: State, memory: bool): State
    requires |s.sealed| > 0
  {
    s.(bytes := s.bytes - s.sealed[0].bytes, sealed := s.sealed[1..],
       evictions := s.evictions + if memory then 1 else 0,
       ledger := if memory then s.ledger
                 else s.ledger.(expired := s.ledger.expired + s.sealed[0].metrics))
  }

  predicate HasRollup(s: State) {
    |s.rollups| > 0 || s.rollupActive.Some?
  }

  function Lose(l: Ledger, ms: seq<Metric>, memory: bool): Ledger {
    if memory then l.(evicted := l.evicted + ms) else l.(expired := l.expired + ms)
  }

  function DropRollup(s: State, memory: bool): State
    requires HasRollup(s)
  {
    var t := s.(aggregateEvictions := s.aggregateEvictions + if memory then 1 else 0);
    if |s.rollups| > 0 then
      t.(bytes := s.bytes - s.rollups[0].bytes, rollups := s.rollups[1..],
         ledger := Lose(s.ledger, s.rollups[0].metrics, memory))
    else
      t.(bytes := s.bytes - s.rollupActive.value.bytes, rollupActive := None,
         ledger := Lose(s.ledger, s.rollupActive.value.metrics, memory))
  }

  function ExpireSealed(s: State, now: nat): State
    decreases |s.sealed|
  {
    if |s.sealed| > 0 && Aged(s.sealed[0].end, now, s.history) then ExpireSealed(DropRaw(s, false), now) else s
  }

  function ExpireRollups(s: State, now: nat): State
    decreases |s.rollups|
  {
    if |s.rollups| > 0 && Aged(s.rollups[0].end, now, s.history) then ExpireRollups(DropRollup(s, false), now) else s
  }

  function ExpireRollupActive(s: State, now: nat): State {
    if s.rollupActive.Some? && Aged(s.rollupActive.value.end, now, s.history) then DropRollup(s, false) else s
  }

  function Expire(s: State, now: nat): State {
    ExpireRollupActive(ExpireRollups(ExpireSealed(s, now), now), now)
  }

  // ----- folding -----

  function Widen(g: Seg, start: nat, end: nat): Seg {
    g.(minNS := Min(g.minNS, start), maxNS := Max(g.maxNS, end))
  }

  function Merge(prev: Metric, m: Metric): Metric {
    Metric(prev.family, prev.start, m.end, Plus(prev.tally, m.tally))
  }

  predicate Continues(prev: Metric, m: Metric) {
    prev.family == m.family && prev.end == m.start
  }

  /** The first entry that `m` continues, or the number of entries when there is none. */
  function MergeIndex(ms: seq<Metric>, m: Metric): (i: nat)
    ensures i <= |ms|
    ensures i < |ms| ==> Continues(ms[i], m)
    ensures forall k :: 0 <= k < i ==> !Continues(ms[k], m)
  {
    if |ms| == 0 then 0 else if Continues(ms[0], m) then 0 else 1 + MergeIndex(ms[1..], m)
  }

  function Grown(length: nat, cap: nat, first: nat): nat {
    if length == cap then (if cap == 0 then first else 2 * cap) else cap
  }

  function AddToRollup(a: Seg, m: Metric): Seg {
    var w := Widen(a, m.start, m.end).(start := Min(a.start, m.start), end := Max(a.end, m.end));
    var i := MergeIndex(a.metrics, m);
    if i < |a.metrics| then
      w.(metrics := a.metrics[i := Merge(a.metrics[i], m)])
    else
      var cap := if |a.metrics| == a.metricCap then Max(4, a.metricCap * 2) else a.metricCap;
      w.(metrics := a.metrics + [m], metricCap := cap, bytes := a.bytes + MetricBytes(cap - a.metricCap))
  }

  function AddAll(a: Seg, ms: seq<Metric>): Seg
    decreases |ms|
  {
    if |ms| == 0 then a else AddAll(AddToRollup(a, ms[0]), ms[1..])
  }

  function NewRollup(first: Metric): Seg {
    Seg(first.start, first.end, [], 0, [], 0, SEGMENT_COST, first.start, first.end)
  }

  /** The state in which the metrics of `oldest` are about to be added to the active rollup. */
  function OpenRollup(s: State, oldest: Seg): (r: State)
    requires |oldest.metrics| > 0
    ensures r.rollupActive.Some?
  {
    var bucket := Minute(oldest.start);
    var t := if s.rollupActive.Some? && bucket != s.bucket
             then s.(rollups := s.rollups + [s.rollupActive.value], rollupActive := None) else s;
    if t.rollupActive.None?
    then t.(bucket := bucket, rollupActive := Some(NewRollup(oldest.metrics[0])), bytes := t.bytes + SEGMENT_COST)
    else t
  }

  function AddMetrics(s: State, ms: seq<Metric>): State
    requires s.rollupActive.Some?
  {
    var a := AddAll(s.rollupActive.value, ms);
    s.(rollupActive := Some(a), bytes := s.bytes + a.bytes - s.rollupActive.value.bytes)
  }

  function CompactOldest(s: State): (r: State)
    requires |s.sealed| > 0
    ensures r.sealed == s.sealed[1..] && r.active == s.active && r.max == s.max && r.history == s.history
    ensures r.interval == s.interval && r.started == s.started && r.ledger == s.ledger
    ensures r.evictions == s.evictions + 1 && r.drops == s.drops && r.aggregateEvictions == s.aggregateEvictions
  {
    var oldest := s.sealed[0];
    var t := DropRaw(s, true);
    if |oldest.metrics| == 0 then t else AddMetrics(OpenRollup(t, oldest), oldest.metrics)
  }

  // ----- fitting the budget -----

  function FoldUntilFits(s: State, cost: nat): State
    decreases |s.sealed|
  {
    if s.bytes + cost > s.max && |s.sealed| > 0 then FoldUntilFits(CompactOldest(s), cost) else s
  }

  function RollupCount(s: State): nat {
    |s.rollups| + if s.rollupActive.Some? then 1 else 0
  }

  function EvictUntilFits(s: State, cost: nat): State
    decreases RollupCount(s)
  {
    if s.bytes + cost > s.max && HasRollup(s) then EvictUntilFits(DropRollup(s, true), cost) else s
  }

  function Advance(s: State, now: nat): State {
    if now < s.active.start then s
    else EvictUntilFits(FoldUntilFits(Expire(Seal(s, now), now), 0), 0)
  }

  /** The state after making room for `cost` more bytes; only a metric may displace rollups. */
  function Room(s: State, cost: nat, metric: bool): State {
    var t := FoldUntilFits(s, cost);
    if metric then EvictUntilFits(t, cost) else t
  }

  // ----- accepting observations -----

  function EventCost(g: Seg, e: Event): nat
    requires |g.events| <= g.eventCap
  {
    StringCost(e) + EventBytes(Grown(|g.events|, g.eventCap, FIRST_EVENTS) - g.eventCap)
  }

  function MetricCost(g: Seg, m: Metric): nat
    requires |g.metrics| <= g.metricCap
  {
    |m.family| + MetricBytes(Grown(|g.metrics|, g.metricCap, FIRST_METRICS) - g.metricCap)
  }

  function AddEvent(s: State, e: Event): State
    requires |s.active.events| <= s.active.eventCap
  {
    var g := s.active;
    var cost := EventCost(g, e);
    s.(bytes := s.bytes + cost,
       active := Widen(g, e.mono, e.mono).(events := g.events + [e],
                                           eventCap := Grown(|g.events|, g.eventCap, FIRST_EVENTS),
                                           bytes := g.bytes + cost))
  }

  function AddMetric(s: State, m: Metric): State
    requires |s.active.metrics| <= s.active.metricCap
  {
    var g := s.active;
    var cost := MetricCost(g, m);
    s.(bytes := s.bytes + cost,
       active := Widen(g, m.start, m.end).(metrics := g.metrics + [m],
                                           metricCap := Grown(|g.metrics|, g.metricCap, FIRST_METRICS),
                                           bytes := g.bytes + cost),
       ledger := s.ledger.(accepted := s.ledger.accepted + [m]))
  }

  function Drop(s: State): State {
    s.(drops := s.drops + 1)
  }

  /** The buffers of the segment being written never hold more than their capacity. */
  predicate Buffered(s: State) {
    |s.active.events| <= s.active.eventCap && |s.active.metrics| <= s.active.metricCap
  }

  // What each loop leaves alone.
  predicate SameRaw(s: State, r: State) {
    r.active == s.active && r.max == s.max && r.history == s.history && r.interval == s.interval &&
    r.started == s.started && r.drops == s.drops && r.ledger.accepted == s.ledger.accepted
  }

  lemma {:induction false} ExpireSealedFrame(s: State, now: nat)
    ensures var r := ExpireSealed(s, now);
            SameRaw(s, r) && r.rollups == s.rollups && r.rollupActive == s.rollupActive &&
            r.ledger.evicted == s.ledger.evicted &&
            |r.sealed| <= |s.sealed| && r.sealed == s.sealed[|s.sealed| - |r.sealed|..]
    decreases |s.sealed|
  {
    if |s.sealed| > 0 && Aged(s.sealed[0].end, now, s.history) {
      ExpireSealedFrame(DropRaw(s, false), now);
    }
  }

  lemma {:induction false} ExpireRollupsFrame(s: State, now: nat)
    ensures var r := ExpireRollups(s, now);
            SameRaw(s, r) && r.sealed == s.sealed && r.rollupActive == s.rollupActive &&
            r.ledger.evicted == s.ledger.evicted &&
            |r.rollups| <= |s.rollups| && r.rollups == s.rollups[|s.rollups| - |r.rollups|..]
    decreases |s.rollups|
  {
    if |s.rollups| > 0 && Aged(s.rollups[0].end, now, s.history) {
      ExpireRollupsFrame(DropRollup(s, false), now);
    }
  }

  lemma {:induction false} FoldFrame(s: State, cost: nat)
    ensures var r := FoldUntilFits(s, cost);
            SameRaw(s, r) && r.ledger == s.ledger && r.aggregateEvictions == s.aggregateEvictions &&
            |r.sealed| <= |s.sealed| && r.sealed == s.sealed[|s.sealed| - |r.sealed|..] &&
            (r.bytes + cost <= r.max || |r.sealed| == 0)
    decreases |s.sealed|
  {
    if s.bytes + cost > s.max && |s.sealed| > 0 {
      FoldFrame(CompactOldest(s), cost);
    }
  }

  lemma {:induction false} EvictFrame(s: State, cost: nat)
    ensures var r := EvictUntilFits(s, cost);
            SameRaw(s, r) && r.sealed == s.sealed && r.ledger.expired == s.ledger.expired &&
            (r.bytes + cost <= r.max || !HasRollup(r))
    decreases RollupCount(s)
  {
    if s.bytes + cost > s.max && HasRollup(s) {
      EvictFrame(DropRollup(s, true), cost);
    }
  }

  /** An advance changes the active segment only by sealing it, and no limit or acceptance. */
  lemma AdvanceFrame(s: State, now: nat)
    ensures var r := Advance(s, now);
            r.max == s.max && r.history == s.history && r.interval == s.interval && r.started == s.started &&
            r.drops == s.drops && r.ledger.accepted == s.ledger.accepted &&
            r.active == if now < s.active.start then s.active else Seal(s, now).active
  {
    if now >= s.active.start {
      var a := Seal(s, now);
      ExpireSealedFrame(a, now);
      ExpireRollupsFrame(ExpireSealed(a, now), now);
      FoldFrame(Expire(a, now), 0);
      EvictFrame(FoldUntilFits(Expire(a, now), 0), 0);
    }
  }

  lemma AdvanceKeepsBuffers(s: State, now: nat)
    requires Buffered(s)
    ensures Buffered(Advance(s, now))
  {
    AdvanceFrame(s, now);
  }

  predicate Late(e: Event, now: nat, history: nat) {
    e.mono > now || now - e.mono > history
  }

  function AcceptEvent(s: State, e: Event, now: nat): State
    requires Buffered(s)
  {
    AdvanceKeepsBuffers(s, now);
    var t := Advance(s, now);
    if Late(e, now, t.history) then Drop(t)
    else
      FoldFrame(t, EventCost(t.active, e));
      var u := Room(t, EventCost(t.active, e), false);
      if u.bytes + EventCost(t.active, e) <= u.max then AddEvent(u, e) else Drop(u)
  }

  function AcceptMetric(s: State, m: Metric, now: nat): State
    requires Buffered(s)
  {
    AdvanceKeepsBuffers(s, now);
    var t := Advance(s, now);
    var cost := MetricCost(t.active, m);
    FoldFrame(t, cost);
    EvictFrame(FoldUntilFits(t, cost), cost);
    var u := Room(t, cost, true);
    if u.bytes + cost <= u.max then AddMetric(u, m) else Drop(u)
  }

  /** The outcomes of an event: late, refused or appended. */
  lemma EventOutcome(s: State, e: Event, now: nat)
    requires Buffered(s)
    ensures var t := Advance(s, now);
            Buffered(t) &&
            var cost := EventCost(t.active, e);
            var u := Room(t, cost, false);
            Buffered(u) && u.active == t.active && u.ledger == t.ledger && u.drops == t.drops && u.max == t.max &&
            AcceptEvent(s, e, now) == if Late(e, now, t.history) then Drop(t)
                                      else if u.bytes + cost <= u.max then AddEvent(u, e) else Drop(u)
  {
    AdvanceKeepsBuffers(s, now);
    var t := Advance(s, now);
    FoldFrame(t, EventCost(t.active, e));
    hide Advance, FoldUntilFits, AddEvent, EventCost, Drop;
  }

  /** The outcomes of a metric: refused or appended. */
  lemma MetricOutcome(s: State, m: Metric, now: nat)
    requires Buffered(s)
    ensures var t := Advance(s, now);
            Buffered(t) &&
            var cost := MetricCost(t.active, m);
            var u := Room(t, cost, true);
            Buffered(u) && u.active == t.active && u.ledger.accepted == t.ledger.accepted && u.max == t.max &&
            AcceptMetric(s, m, now) == if u.bytes + cost <= u.max then AddMetric(u, m) else Drop(u)
  {
    AdvanceKeepsBuffers(s, now);
    var t := Advance(s, now);
    var cost := MetricCost(t.active, m);
    FoldFrame(t, cost);
    EvictFrame(FoldUntilFits(t, cost), cost);
    hide Advance, FoldUntilFits, EvictUntilFits, AddMetric, MetricCost, Drop;
  }

  // ----- runs -----

  datatype Op = Tick(now: nat) | Detail(event: Event, now: nat) | Aggregate(metric: Metric, now: nat)

  /** What the engine guarantees of its calls: a metric's interval has ended. */
  predicate Legal(op: Op) {
    op.Aggregate? ==> op.metric.start <= op.metric.end <= op.now
  }

  function Step(s: State, op: Op): State
    requires Buffered(s)
  {
    match op
    case Tick(now) => Advance(s, now)
    case Detail(e, now) => AcceptEvent(s, e, now)
    case Aggregate(m, now) => AcceptMetric(s, m, now)
  }

  lemma StepKeepsBuffers(s: State, op: Op)
    requires Buffered(s)
    ensures Buffered(Step(s, op))
  {
    AdvanceKeepsBuffers(s, op.now);
    var t := Advance(s, op.now);
    match op
    case Tick(_) =>
    case Detail(e, now) => FoldFrame(t, EventCost(t.active, e));
    case Aggregate(m, now) =>
      var cost := MetricCost(t.active, m);
      FoldFrame(t, cost);
      EvictFrame(FoldUntilFits(t, cost), cost);
  }

  /** The state after a whole run of calls. */
  function Run(s: State, ops: seq<Op>): (r: State)
    requires Buffered(s)
    ensures Buffered(r)
    decreases |ops|
  {
    if |ops| == 0 then s
    else
      StepKeepsBuffers(s, ops[0]);
      Run(Step(s, ops[0]), ops[1..])
  }

  /** Every metric offered to the recorder, accepted or refused, in order. */
  function Offered(ops: seq<Op>): seq<Metric> {
    if |ops| == 0 then []
    else if ops[0].Aggregate? then [ops[0].metric] + Offered(ops[1..]) else Offered(ops[1..])
  }

  // The log of accepted metrics only grows.
  lemma StepLog(s: State, op: Op)
    requires Buffered(s)
    ensures s.ledger.accepted <= Step(s, op).ledger.accepted
  {
    AdvanceFrame(s, op.now);
    AdvanceKeepsBuffers(s, op.now);
    var t := Advance(s, op.now);
    match op
    case Tick(_) =>
    case Detail(e, _) => FoldFrame(t, EventCost(t.active, e));
    case Aggregate(m, _) =>
      var cost := MetricCost(t.active, m);
      FoldFrame(t, cost);
      EvictFrame(FoldUntilFits(t, cost), cost);
  }

  lemma {:induction false} RunLog(s: State, ops: seq<Op>)
    requires Buffered(s)
    ensures s.ledger.accepted <= Run(s, ops).ledger.accepted
    decreases |ops|
  {
    if |ops| > 0 {
      StepLog(s, ops[0]);
      StepKeepsBuffers(s, ops[0]);
      RunLog(Step(s, ops[0]), ops[1..]);
    }
  }

  lemma {:induction false} RunConcat(s: State, a: seq<Op>, b: seq<Op>)
    requires Buffered(s)
    ensures Run(s, a + b) == Run(Run(s, a), b)
    decreases |a|
  {
    if |a| == 0 {
      assert a + b == b;
    } else {
      assert (a + b)[0] == a[0] && (a + b)[1..] == a[1..] + b;
      StepKeepsBuffers(s, a[0]);
      RunConcat(Step(s, a[0]), a[1..], b);
    }
  }

  lemma RunOne(s: State, op: Op)
    requires Buffered(s)
    ensures Run(s, [op]) == Step(s, op)
  {
    StepKeepsBuffers(s, op);
    assert [op][1..] == [];
    assert Run(Step(s, op), []) == Step(s, op);
  }

  lemma RunCons(s: State, op: Op, ops: seq<Op>)
    requires Buffered(s)
    ensures Buffered(Step(s, op)) && Run(s, [op] + ops) == Run(Step(s, op), ops)
  {
    StepKeepsBuffers(s, op);
    assert ([op] + ops)[1..] == ops;
  }

  // ----- views of a state -----

  function MetricsOf(gs: seq<Seg>): seq<Metric> {
    if |gs| == 0 then [] else gs[0].metrics + MetricsOf(gs[1..])
  }

  lemma {:induction false} MetricsOfAppend(gs: seq<Seg>, g: Seg)
    ensures MetricsOf(gs + [g]) == MetricsOf(gs) + g.metrics
  {
    if |gs| > 0 {
      assert (gs + [g])[1..] == gs[1..] + [g];
      MetricsOfAppend(gs[1..], g);
    }
  }

  function RollupMetrics(s: State): seq<Metric> {
    MetricsOf(s.rollups) + (if s.rollupActive.Some? then s.rollupActive.value.metrics else [])
  }

  function RawMetrics(s: State): seq<Metric> {
    MetricsOf(s.sealed) + s.active.metrics
  }

  /** Every aggregate still in the history, oldest tier first. */
  function Retained(s: State): seq<Metric> {
    RollupMetrics(s) + RawMetrics(s)
  }

  function Rollups(s: State): seq<Seg> {
    if s.rollupActive.Some? then s.rollups + [s.rollupActive.value] else s.rollups
  }

  function RawSegments(s: State): seq<Seg> {
    s.sealed + [s.active]
  }

  /** Every segment of the history in the order a snapshot visits them. */
  function Segments(s: State): seq<Seg> {
    Rollups(s) + RawSegments(s)
  }

  function DetailFrom(s: State): nat {
    if |s.sealed| > 0 then s.sealed[0].start else s.active.start
  }

  function RetainedFrom(s: State): nat {
    if |s.rollups| > 0 then Min(DetailFrom(s), s.rollups[0].minNS)
    else if s.rollupActive.Some? then Min(DetailFrom(s), s.rollupActive.value.minNS)
    else DetailFrom(s)
  }
}
