/** The byte budget: when the recorder is within it, and why an engine that polls
    contiguous intervals of the known families never leaves it. */
module RecorderBudget {
  import opened Telemetry
  import opened RecorderSpec
  import opened RecorderInvariant

  // ----- unconditional bounds -----

  /** With nothing left to fold or evict, only the active segment is charged. */
  lemma Exhausted(s: State)
    requires Inv(s) && |s.sealed| == 0 && !HasRollup(s)
    ensures s.bytes <= s.max
  {
  }

  lemma MakeRoomFits(s: State, cost: nat)
    requires Inv(s)
    ensures var r := EvictUntilFits(FoldUntilFits(s, cost), cost);
            r.bytes <= r.max && r.max == s.max && (r.bytes + cost <= r.max || (|r.sealed| == 0 && !HasRollup(r)))
  {
    var t := FoldUntilFits(s, cost);
    FoldHolds(s, cost);
    FoldFrame(s, cost);
    EvictHolds(t, cost);
    EvictFrame(t, cost);
    var r := EvictUntilFits(t, cost);
    if r.bytes + cost > r.max {
      Exhausted(r);
    }
  }

  lemma AdvanceFits(s: State, now: nat)
    requires Inv(s)
    ensures var r := Advance(s, now);
            r.max == s.max && r.drops == s.drops && (now >= s.active.start || s.bytes <= s.max ==> r.bytes <= r.max)
  {
    if now >= s.active.start {
      var a := Seal(s, now);
      SealHolds(s, now);
      ExpireHolds(a, now);
      MakeRoomFits(Expire(a, now), 0);
    }
    AdvanceFrame(s, now);
  }

  /** The history is within budget after every advance that is not early, every metric,
      accepted or not, and every accepted event. */
  lemma StepFits(s: State, op: Op)
    requires Inv(s) && Legal(op)
    ensures var r := Step(s, op);
            r.max == s.max &&
            (op.Tick? && op.now >= s.active.start ==> r.bytes <= r.max) &&
            (op.Aggregate? ==> r.bytes <= r.max) &&
            (op.Detail? && r.drops == s.drops ==> r.bytes <= r.max)
  {
    InvBuffers(s);
    AdvanceHolds(s, op.now);
    AdvanceFits(s, op.now);
    AdvanceFrame(s, op.now);
    var t := Advance(s, op.now);
    hide Inv, Advance, Room, AcceptEvent, AcceptMetric, Buffered;
    match op
    case Tick(_) =>
    case Detail(e, now) => EventOutcome(s, e, now);
    case Aggregate(m, now) =>
      MetricOutcome(s, m, now);
      MakeRoomFits(t, MetricCost(t.active, m));
  }

  // ----- contiguous polling -----

  /** The end of the last metric of `family`, or `e` when there is none. */
  function ChainEnd(ms: seq<Metric>, family: string, e: Option<nat>): Option<nat> {
    if |ms| == 0 then e
    else ChainEnd(ms[1..], family, if ms[0].family == family then Some(ms[0].end) else e)
  }

  /** Every metric of `family` starts where its predecessor, at first `e`, ended. */
  predicate Chain(ms: seq<Metric>, family: string, e: Option<nat>) {
    |ms| == 0 ||
    if ms[0].family == family
    then (e.Some? ==> ms[0].start == e.value) && Chain(ms[1..], family, Some(ms[0].end))
    else Chain(ms[1..], family, e)
  }

  predicate Known(ms: seq<Metric>) {
    forall m :: m in ms ==> m.family in FAMILIES
  }

  /** Metrics of the known families, contiguous within each family. */
  predicate Contiguous(ms: seq<Metric>) {
    Known(ms) && forall f :: f in FAMILIES ==> Chain(ms, f, None)
  }

  lemma {:induction false} ChainConcat(a: seq<Metric>, b: seq<Metric>, f: string, e: Option<nat>)
    ensures Chain(a + b, f, e) <==> Chain(a, f, e) && Chain(b, f, ChainEnd(a, f, e))
    ensures ChainEnd(a + b, f, e) == ChainEnd(b, f, ChainEnd(a, f, e))
  {
    if |a| == 0 {
      assert a + b == b;
    } else {
      assert (a + b)[1..] == a[1..] + b;
      ChainConcat(a[1..], b, f, if a[0].family == f then Some(a[0].end) else e);
    }
  }

  lemma {:induction false} ChainForget(ms: seq<Metric>, f: string, e: Option<nat>)
    requires Chain(ms, f, e)
    ensures Chain(ms, f, None)
    ensures ChainEnd(ms, f, None).Some? ==> ChainEnd(ms, f, None) == ChainEnd(ms, f, e)
  {
    if |ms| > 0 && ms[0].family != f {
      ChainForget(ms[1..], f, e);
    }
  }

  // ----- one entry per family -----

  predicate Distinct(ms: seq<Metric>) {
    forall i, j :: 0 <= i < j < |ms| ==> ms[i].family != ms[j].family
  }

  /** At most one entry per known family, so the first buffer is large enough. */
  predicate Slim(g: Seg) {
    Distinct(g.metrics) && Known(g.metrics) && g.metricCap <= 4
  }

  function Slot(ms: seq<Metric>, family: string): (i: nat)
    ensures i <= |ms|
    ensures i < |ms| ==> ms[i].family == family
    ensures forall k :: 0 <= k < i ==> ms[k].family != family
  {
    if |ms| == 0 || ms[0].family == family then 0 else 1 + Slot(ms[1..], family)
  }

  function EntryEnd(ms: seq<Metric>, family: string): Option<nat> {
    var i := Slot(ms, family); if i < |ms| then Some(ms[i].end) else None
  }

  function Entry(s: State, family: string): Option<nat> {
    if s.rollupActive.Some? then EntryEnd(s.rollupActive.value.metrics, family) else None
  }

  lemma AtMostFour(ms: seq<Metric>)
    requires Distinct(ms) && Known(ms)
    ensures |ms| <= 4
  {
    DistinctWithin(seq(|ms|, i requires 0 <= i < |ms| => ms[i].family), {BLOCK_IO, SCHEDULER, TCP, OOM});
  }

  /** Replacing an entry by one of the same family moves only that family's end. */
  lemma ReplaceEntry(ms: seq<Metric>, k: nat, x: Metric)
    requires Distinct(ms) && Known(ms) && k < |ms| && x.family == ms[k].family
    ensures var r := ms[k := x];
            Distinct(r) && Known(r) &&
            forall f :: EntryEnd(r, f) == if f == x.family then Some(x.end) else EntryEnd(ms, f)
  {
    var r := ms[k := x];
    assert forall j :: 0 <= j < |ms| ==> r[j].family == ms[j].family && ms[j].family in FAMILIES;
    forall f
      ensures Slot(r, f) == Slot(ms, f)
    {
      var p, q := Slot(r, f), Slot(ms, f);
      assert !(p < q) && !(q < p);
    }
  }

  lemma AppendEntry(ms: seq<Metric>, x: Metric)
    requires Distinct(ms) && Known(ms) && x.family in FAMILIES && EntryEnd(ms, x.family).None?
    ensures var r := ms + [x];
            Distinct(r) && Known(r) &&
            forall f :: EntryEnd(r, f) == if f == x.family then Some(x.end) else EntryEnd(ms, f)
  {
    var r := ms + [x];
    assert Slot(ms, x.family) == |ms|;
    forall f
      ensures EntryEnd(r, f) == if f == x.family then Some(x.end) else EntryEnd(ms, f)
    {
      var p, q := Slot(r, f), Slot(ms, f);
      assert forall j :: 0 <= j < |ms| ==> r[j] == ms[j];
      assert r[|ms|] == x;
    }
  }

  /** Folding one metric that continues its family's entry, or opens it. */
  lemma AddSlim(a: Seg, m: Metric)
    requires RollupShape(a) && Slim(a) && m.start <= m.end && m.family in FAMILIES
    requires var e := EntryEnd(a.metrics, m.family); e.Some? ==> m.start == e.value
    ensures var r := AddToRollup(a, m);
            Slim(r) && RollupOk(r) && (r.metricCap == a.metricCap || a.metricCap == 0) &&
            forall f :: EntryEnd(r.metrics, f) == if f == m.family then Some(m.end) else EntryEnd(a.metrics, f)
  {
    hide FAMILIES;
    AddToRollupHolds(a, m);
    var i, k := MergeIndex(a.metrics, m), Slot(a.metrics, m.family);
    if k < |a.metrics| {
      assert Continues(a.metrics[k], m);
      assert i == k;
      ReplaceEntry(a.metrics, k, Merge(a.metrics[k], m));
    } else {
      AppendEntry(a.metrics, m);
      AtMostFour(a.metrics + [m]);
    }
  }

  lemma {:induction false} AddAllSlim(a: Seg, ms: seq<Metric>, rest: seq<Metric>)
    requires RollupShape(a) && Slim(a) && Known(ms) && forall m :: m in ms ==> m.start <= m.end
    requires forall f :: f in FAMILIES ==> Chain(ms + rest, f, EntryEnd(a.metrics, f))
    ensures var r := AddAll(a, ms);
            Slim(r) && RollupShape(r) && (|ms| > 0 ==> RollupOk(r)) &&
            (r.metricCap == a.metricCap || a.metricCap == 0) &&
            forall f :: f in FAMILIES ==>
              Chain(rest, f, EntryEnd(r.metrics, f)) &&
              ChainEnd(rest, f, EntryEnd(r.metrics, f)) == ChainEnd(ms + rest, f, EntryEnd(a.metrics, f))
    decreases |ms|
  {
    if |ms| == 0 {
      assert ms + rest == rest;
    } else {
      var m := ms[0];
      assert m in ms;
      assert (ms + rest)[1..] == ms[1..] + rest && (ms + rest)[0] == m;
      assert Chain(ms + rest, m.family, EntryEnd(a.metrics, m.family));
      AddSlim(a, m);
      AddAllSlim(AddToRollup(a, m), ms[1..], rest);
    }
  }

  // ----- the contiguous invariant -----

  predicate LinkedAt(s: State, f: string) {
    var ms, e := RawMetrics(s), Entry(s, f);
    Chain(ms, f, e) && (ChainEnd(ms, f, e).Some? ==> ChainEnd(ms, f, e) == ChainEnd(s.ledger.accepted, f, None))
  }

  /** Rollups hold one entry per family, raw metrics continue the active rollup's entries. */
  predicate Linked(s: State) {
    Known(RawMetrics(s)) &&
    (forall g :: g in s.rollups ==> Slim(g)) && (s.rollupActive.Some? ==> Slim(s.rollupActive.value)) &&
    forall f :: f in FAMILIES ==> LinkedAt(s, f)
  }

  lemma NewLinked(history: nat, max: nat, interval: nat, now: nat)
    ensures Linked(New(history, max, interval, now))
  {
  }

  /** Losing the active rollup, or only older history, keeps the links. */
  lemma ForgetLinked(s: State, r: State)
    requires Linked(s) && RawMetrics(r) == RawMetrics(s) && r.ledger.accepted == s.ledger.accepted
    requires forall g :: g in r.rollups ==> Slim(g)
    requires r.rollupActive == s.rollupActive || r.rollupActive.None?
    ensures Linked(r)
  {
    forall f | f in FAMILIES
      ensures LinkedAt(r, f)
    {
      assert LinkedAt(s, f);
      ChainForget(RawMetrics(s), f, Entry(s, f));
    }
  }

  lemma DropRollupLinked(s: State, memory: bool)
    requires Linked(s) && HasRollup(s)
    ensures Linked(DropRollup(s, memory))
  {
    ForgetLinked(s, DropRollup(s, memory));
  }

  lemma {:induction false} ExpireRollupsLinked(s: State, now: nat)
    requires Linked(s)
    ensures Linked(ExpireRollups(s, now))
    decreases |s.rollups|
  {
    if |s.rollups| > 0 && Aged(s.rollups[0].end, now, s.history) {
      DropRollupLinked(s, false);
      ExpireRollupsLinked(DropRollup(s, false), now);
    }
  }

  lemma {:induction false} EvictLinked(s: State, cost: nat)
    requires Linked(s)
    ensures Linked(EvictUntilFits(s, cost))
    decreases RollupCount(s)
  {
    if s.bytes + cost > s.max && HasRollup(s) {
      DropRollupLinked(s, true);
      EvictLinked(DropRollup(s, true), cost);
    }
  }

  /** Once the oldest raw segment has aged, so has every rollup. */
  lemma {:induction false} RollupsAge(s: State, now: nat)
    requires forall g :: g in s.rollups ==> Aged(g.end, now, s.history)
    ensures ExpireRollups(s, now).rollups == []
    decreases |s.rollups|
  {
    if |s.rollups| > 0 {
      RollupsAge(DropRollup(s, false), now);
    }
  }

  /** Dropping any number of raw segments from the front leaves a chain with no past. */
  lemma {:induction false} ExpireSealedSuffix(s: State, now: nat)
    requires Known(RawMetrics(s))
    ensures var r := ExpireSealed(s, now);
            Known(RawMetrics(r)) &&
            forall f, e :: f in FAMILIES && Chain(RawMetrics(s), f, e) ==>
              Chain(RawMetrics(r), f, None) &&
              (ChainEnd(RawMetrics(r), f, None).Some? ==>
                 ChainEnd(RawMetrics(r), f, None) == ChainEnd(RawMetrics(s), f, e))
    decreases |s.sealed|
  {
    forall f, e | Chain(RawMetrics(s), f, e)
      ensures Chain(RawMetrics(s), f, None)
      ensures ChainEnd(RawMetrics(s), f, None).Some? ==>
          ChainEnd(RawMetrics(s), f, None) == ChainEnd(RawMetrics(s), f, e)
    {
      ChainForget(RawMetrics(s), f, e);
    }
    if |s.sealed| > 0 && Aged(s.sealed[0].end, now, s.history) {
      var t, ms := DropRaw(s, false), s.sealed[0].metrics;
      assert RawMetrics(s) == ms + RawMetrics(t);
      ExpireSealedSuffix(t, now);
      forall f, e | Chain(RawMetrics(s), f, e)
        ensures Chain(RawMetrics(t), f, ChainEnd(ms, f, e))
        ensures ChainEnd(RawMetrics(t), f, ChainEnd(ms, f, e)) == ChainEnd(RawMetrics(s), f, e)
      {
        ChainConcat(ms, RawMetrics(t), f, e);
      }
    }
  }

  lemma ExpireLinked(s: State, now: nat)
    requires Inv(s) && Linked(s)
    ensures Linked(Expire(s, now))
  {
    if |s.sealed| == 0 || !Aged(s.sealed[0].end, now, s.history) {
      ExpireRollupsOnly(s, now);
    } else {
      ExpireEverythingOlder(s, now);
      ExpireSealedSuffix(s, now);
      NoRollupsLinked(s, Expire(s, now));
    }
  }

  lemma ExpireRollupsOnly(s: State, now: nat)
    requires Linked(s) && (|s.sealed| == 0 || !Aged(s.sealed[0].end, now, s.history))
    ensures Linked(Expire(s, now))
  {
    hide Linked;
    var b := ExpireRollups(s, now);
    ExpireRollupsLinked(s, now);
    if b.rollupActive.Some? {
      DropRollupLinked(b, false);
    }
  }

  lemma NoRollupsLinked(s: State, r: State)
    requires Linked(s) && r.rollups == [] && r.rollupActive.None? && r.ledger.accepted == s.ledger.accepted
    requires Known(RawMetrics(r))
    requires forall f, e :: f in FAMILIES && Chain(RawMetrics(s), f, e) ==>
               Chain(RawMetrics(r), f, None) &&
               (ChainEnd(RawMetrics(r), f, None).Some? ==>
                  ChainEnd(RawMetrics(r), f, None) == ChainEnd(RawMetrics(s), f, e))
    ensures Linked(r)
  {
    hide Chain, ChainEnd, FAMILIES;
    forall f | f in FAMILIES
      ensures LinkedAt(r, f)
    {
      assert LinkedAt(s, f);
    }
  }

  lemma ExpireEverythingOlder(s: State, now: nat)
    requires Inv(s) && |s.sealed| > 0 && Aged(s.sealed[0].end, now, s.history)
    ensures var a, r := ExpireSealed(s, now), Expire(s, now);
            r.rollups == [] && r.rollupActive.None? && RawMetrics(r) == RawMetrics(a) &&
            r.ledger.accepted == s.ledger.accepted
  {
    var a := ExpireSealed(s, now);
    ExpireSealedFrame(s, now);
    OldestPrecedes(s);
    assert forall g :: g in a.rollups ==> Aged(g.end, now, a.history);
    assert a.rollupActive.Some? ==> Aged(a.rollupActive.value.end, now, a.history);
    hide Inv, ExpireSealed;
    RollupsAge(a, now);
    ExpireRollupsFrame(a, now);
  }

  lemma SealLinked(s: State, now: nat)
    requires Linked(s) && s.active.start <= now
    ensures Linked(Seal(s, now))
  {
    var r := Seal(s, now);
    MetricsOfAppend(s.sealed, s.active.(end := s.active.start + s.interval));
    assert RawMetrics(r) == RawMetrics(s);
    ForgetLinked(s, r);
  }

  // ----- folding never grows a contiguous history -----

  /** Folding the oldest segment keeps the links and never costs more than it frees. */
  lemma CompactLinked(s: State)
    requires Inv(s) && Linked(s) && |s.sealed| > 0
    ensures Linked(CompactOldest(s)) && CompactOldest(s).bytes <= s.bytes
  {
    if |s.sealed[0].metrics| == 0 {
      EmptyLinked(s);
    } else {
      CompactSlim(s);
      CompactFrees(s);
    }
  }

  lemma EmptyLinked(s: State)
    requires Inv(s) && Linked(s) && |s.sealed| > 0 && |s.sealed[0].metrics| == 0
    ensures CompactOldest(s) == DropRaw(s, true) && Linked(CompactOldest(s)) && CompactOldest(s).bytes <= s.bytes
  {
    var t := DropRaw(s, true);
    assert s.sealed[0] in s.sealed;
    assert RawMetrics(s) == s.sealed[0].metrics + RawMetrics(t);
    assert RawMetrics(t) == RawMetrics(s);
    assert forall g :: g in t.rollups ==> Slim(g);
    hide Linked, RawMetrics, Slim;
    ForgetLinked(s, t);
  }

  lemma RestLinked(s: State)
    requires Linked(s) && |s.sealed| > 0
    ensures var t, ms := DropRaw(s, true), s.sealed[0].metrics;
            Known(ms) && Known(RawMetrics(t)) && RawMetrics(s) == ms + RawMetrics(t) &&
            forall f :: f in FAMILIES ==> Chain(ms + RawMetrics(t), f, Entry(t, f))
  {
    var t, ms := DropRaw(s, true), s.sealed[0].metrics;
    assert RawMetrics(s) == ms + RawMetrics(t);
    assert forall m :: m in ms ==> m in RawMetrics(s);
    forall f | f in FAMILIES
      ensures Chain(ms + RawMetrics(t), f, Entry(t, f))
    {
      assert LinkedAt(s, f);
    }
  }

  lemma CompactSlim(s: State)
    requires Inv(s) && Linked(s) && |s.sealed| > 0 && |s.sealed[0].metrics| > 0
    ensures Linked(CompactOldest(s))
  {
    var oldest, t, r := s.sealed[0], DropRaw(s, true), CompactOldest(s);
    RestLinked(s);
    DropRawHolds(s, true);
    OldestPrecedes(s);
    var rest := RawMetrics(t);
    OpenRollupHolds(t, oldest);
    OpenSlimAfterDrop(s);
    var u := OpenRollup(t, oldest);
    AddAllSlim(u.rollupActive.value, oldest.metrics, rest);
    forall f | f in FAMILIES
      ensures LinkedAt(r, f)
    {
      assert LinkedAt(s, f);
    }
  }

  lemma OpenSlimAfterDrop(s: State)
    requires Inv(s) && Linked(s) && |s.sealed| > 0 && |s.sealed[0].metrics| > 0
    ensures var oldest, t := s.sealed[0], DropRaw(s, true);
            var u := OpenRollup(t, oldest);
            (forall g :: g in u.rollups ==> Slim(g)) && Slim(u.rollupActive.value) &&
            RawMetrics(u) == RawMetrics(t) &&
            forall f :: f in FAMILIES ==>
              Chain(RawMetrics(s), f, Entry(u, f)) &&
              (ChainEnd(RawMetrics(s), f, Entry(u, f)).Some? ==>
                 ChainEnd(RawMetrics(s), f, Entry(u, f)) == ChainEnd(RawMetrics(s), f, Entry(s, f)))
  {
    var oldest, t := s.sealed[0], DropRaw(s, true);
    var u := OpenRollup(t, oldest);
    forall f | f in FAMILIES
      ensures Chain(RawMetrics(s), f, Entry(u, f))
      ensures ChainEnd(RawMetrics(s), f, Entry(u, f)).Some? ==>
                ChainEnd(RawMetrics(s), f, Entry(u, f)) == ChainEnd(RawMetrics(s), f, Entry(s, f))
    {
      assert LinkedAt(s, f);
      ChainForget(RawMetrics(s), f, Entry(s, f));
    }
  }

  /** A folded segment frees at least a fixed cost and four metric slots; a rollup with at
      most four entries costs no more than that, and only when it is opened. */
  lemma CompactFrees(s: State)
    requires Inv(s) && Linked(s) && |s.sealed| > 0 && |s.sealed[0].metrics| > 0
    ensures CompactOldest(s).bytes <= s.bytes
  {
    var oldest, t := s.sealed[0], DropRaw(s, true);
    RestLinked(s);
    OldestPrecedes(s);
    DropRawHolds(s, true);
    OpenRollupHolds(t, oldest);
    OpenSlimAfterDrop(s);
    var u := OpenRollup(t, oldest);
    AddAllSlim(u.rollupActive.value, oldest.metrics, RawMetrics(t));
  }

  lemma {:induction false} FoldLinked(s: State, cost: nat)
    requires Inv(s) && Linked(s)
    ensures Linked(FoldUntilFits(s, cost)) && FoldUntilFits(s, cost).bytes <= s.bytes
    decreases |s.sealed|
  {
    if s.bytes + cost > s.max && |s.sealed| > 0 {
      CompactLinked(s);
      CompactHolds(s);
      FoldLinked(CompactOldest(s), cost);
    }
  }

  lemma AdvanceLinked(s: State, now: nat)
    requires Inv(s) && Linked(s)
    ensures Linked(Advance(s, now))
  {
    if now >= s.active.start {
      var a := Seal(s, now);
      SealHolds(s, now);
      SealLinked(s, now);
      ExpireHolds(a, now);
      ExpireLinked(a, now);
      FoldLinked(Expire(a, now), 0);
      EvictLinked(FoldUntilFits(Expire(a, now), 0), 0);
    }
  }

  lemma AddMetricLinked(s: State, m: Metric)
    requires Buffered(s) && Linked(s) && Contiguous(s.ledger.accepted + [m])
    ensures Linked(AddMetric(s, m))
  {
    var r := AddMetric(s, m);
    assert RawMetrics(r) == RawMetrics(s) + [m];
    assert m in s.ledger.accepted + [m];
    forall f | f in FAMILIES
      ensures LinkedAt(r, f)
    {
      assert LinkedAt(s, f);
      ChainConcat(RawMetrics(s), [m], f, Entry(s, f));
      ChainConcat(s.ledger.accepted, [m], f, None);
      assert Entry(r, f) == Entry(s, f);
    }
  }

  lemma ContiguousPrefix(a: seq<Metric>, b: seq<Metric>)
    requires a <= b && Contiguous(b)
    ensures Contiguous(a)
  {
    var c := b[|a|..];
    assert b == a + c;
    forall f | f in FAMILIES
      ensures Chain(a, f, None)
    {
      ChainConcat(a, c, f, None);
    }
  }

  lemma DropLinked(s: State)
    requires Linked(s)
    ensures Linked(Drop(s))
  {
    ForgetLinked(s, Drop(s));
  }

  lemma EventLinked(s: State, e: Event, now: nat)
    requires Inv(s) && Linked(s) && s.bytes <= s.max
    ensures var r := AcceptEvent(s, e, now);
            Linked(r) && r.bytes <= r.max && r.ledger.accepted == s.ledger.accepted
  {
    InvBuffers(s);
    hide *;
    AdvanceHolds(s, now);
    AdvanceLinked(s, now);
    AdvanceWithin(s, now);
    EventOutcome(s, e, now);
    EventKeepsLinks(Advance(s, now), e);
  }

  lemma AdvanceWithin(s: State, now: nat)
    requires Inv(s) && s.bytes <= s.max
    ensures Advance(s, now).bytes <= Advance(s, now).max && Advance(s, now).ledger.accepted == s.ledger.accepted
  {
    AdvanceFits(s, now);
    AdvanceFrame(s, now);
  }

  lemma EventKeepsLinks(t: State, e: Event)
    requires Inv(t) && Buffered(t) && Linked(t) && t.bytes <= t.max
    ensures var cost := EventCost(t.active, e);
            var u := Room(t, cost, false);
            Buffered(u) && Linked(Drop(t)) && Linked(Drop(u)) && Linked(AddEvent(u, e)) &&
            Drop(t).bytes <= Drop(t).max && Drop(u).bytes <= Drop(u).max &&
            AddEvent(u, e).bytes == u.bytes + cost && AddEvent(u, e).max == u.max &&
            AddEvent(u, e).ledger == Drop(u).ledger == Drop(t).ledger == t.ledger
  {
    var cost := EventCost(t.active, e);
    FoldFrame(t, cost);
    FoldLinked(t, cost);
    hide Linked, Inv;
    var u := Room(t, cost, false);
    DropLinked(t);
    DropLinked(u);
    ForgetLinked(u, AddEvent(u, e));
  }

  lemma MetricLinked(s: State, m: Metric, now: nat)
    requires Inv(s) && Linked(s) && m.start <= m.end <= now
    requires Contiguous(AcceptMetric(s, m, now).ledger.accepted)
    ensures Linked(AcceptMetric(s, m, now))
    ensures s.ledger.accepted <= AcceptMetric(s, m, now).ledger.accepted
  {
    AdvanceHolds(s, now);
    AdvanceLinked(s, now);
    AdvanceFrame(s, now);
    var t := Advance(s, now);
    var cost := MetricCost(t.active, m);
    FoldFrame(t, cost);
    FoldLinked(t, cost);
    EvictFrame(FoldUntilFits(t, cost), cost);
    EvictLinked(FoldUntilFits(t, cost), cost);
    var u := Room(t, cost, true);
    if u.bytes + cost <= u.max {
      AddMetricLinked(u, m);
    } else {
      DropLinked(u);
    }
  }

  lemma StepLinked(s: State, op: Op)
    requires Inv(s) && Linked(s) && s.bytes <= s.max && Legal(op)
    requires Contiguous(Step(s, op).ledger.accepted)
    ensures Linked(Step(s, op)) && Step(s, op).bytes <= Step(s, op).max
  {
    StepFits(s, op);
    match op
    case Tick(now) => AdvanceLinked(s, now); AdvanceFits(s, now);
    case Detail(e, now) => EventLinked(s, e, now);
    case Aggregate(m, now) => MetricLinked(s, m, now);
  }

  lemma {:induction false} RunLinked(s: State, ops: seq<Op>)
    requires Inv(s) && Linked(s) && s.bytes <= s.max && forall op :: op in ops ==> Legal(op)
    requires Contiguous(Run(s, ops).ledger.accepted)
    ensures Linked(Run(s, ops)) && Run(s, ops).bytes <= Run(s, ops).max
    decreases |ops|
  {
    if |ops| > 0 {
      assert ops[0] in ops;
      var t := Step(s, ops[0]);
      StepHolds(s, ops[0]);
      RunLog(t, ops[1..]);
      ContiguousPrefix(t.ledger.accepted, Run(s, ops).ledger.accepted);
      StepLinked(s, ops[0]);
      RunLinked(t, ops[1..]);
    }
  }

  /** If the accepted metrics are contiguous per known family, the history is within its
      budget after every call and each rollup holds at most one entry per family. */
  lemma RunWithinBudget(history: nat, max: nat, interval: nat, started: nat, ops: seq<Op>)
    requires SEGMENT_COST <= max && forall op :: op in ops ==> Legal(op)
    requires Contiguous(Run(New(history, max, interval, started), ops).ledger.accepted)
    ensures var r := Run(New(history, max, interval, started), ops);
            r.bytes <= r.max &&
            (forall g :: g in r.rollups ==> Distinct(g.metrics)) &&
            (r.rollupActive.Some? ==> Distinct(r.rollupActive.value.metrics))
  {
    NewHolds(history, max, interval, started);
    NewLinked(history, max, interval, started);
    RunLinked(New(history, max, interval, started), ops);
  }
}
