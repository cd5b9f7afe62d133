/** Snapshot selection as a plain filter over the retained history, and what every
    selected capture guarantees. */
module SnapshotSpec {
  import opened Telemetry
  import opened CaptureModel
  import opened RecorderSpec
  import opened RecorderInvariant

  /** The requested start, clamped to what is retained. */
  function Boundary(s: State, start: nat, now: nat): nat {
    if start < RetainedFrom(s) then Min(RetainedFrom(s), now) else start
  }

  /** A complete aggregate interval inside the window that crosses its start. */
  predicate Crosses(m: Metric, boundary: nat, now: nat) {
    m.start < boundary < m.end <= now
  }

  /** The earliest start of a crossing interval, or the boundary itself. */
  function Earliest(ms: seq<Metric>, boundary: nat, now: nat): (r: nat)
    ensures r <= boundary
    ensures forall m :: m in ms && Crosses(m, boundary, now) ==> r <= m.start
    ensures r < boundary ==> exists m :: m in ms && Crosses(m, boundary, now) && m.start == r
  {
    if |ms| == 0 then boundary
    else
      var r := Earliest(ms[..|ms| - 1], boundary, now);
      var m := ms[|ms| - 1];
      if Crosses(m, boundary, now) then Min(r, m.start) else r
  }

  function Actual(s: State, start: nat, now: nat): nat {
    Earliest(RollupMetrics(s), Boundary(s, start, now), now)
  }

  function SelectEvents(es: seq<Event>, lo: nat, hi: nat): seq<Event> {
    if |es| == 0 then []
    else
      var e := es[|es| - 1];
      SelectEvents(es[..|es| - 1], lo, hi) + (if lo <= e.mono <= hi then [e] else [])
  }

  function SelectMetrics(ms: seq<Metric>, lo: nat, hi: nat): seq<Metric> {
    if |ms| == 0 then []
    else
      var m := ms[|ms| - 1];
      SelectMetrics(ms[..|ms| - 1], lo, hi) + (if m.start >= lo && m.end <= hi then [m] else [])
  }

  /** What one retained segment contributes: nothing when it lies outside the window. */
  function Select(g: Seg, actual: nat, eventStart: nat, now: nat): seq<Piece> {
    if g.maxNS < actual || g.minNS > now then []
    else [Piece(g.start, g.end, SelectEvents(g.events, eventStart, now), SelectMetrics(g.metrics, actual, now))]
  }

  function Pieces(gs: seq<Seg>, actual: nat, eventStart: nat, now: nat): seq<Piece> {
    if |gs| == 0 then [] else Select(gs[0], actual, eventStart, now) + Pieces(gs[1..], actual, eventStart, now)
  }

  function LatestEnd(ms: seq<Metric>): (r: nat)
    ensures forall m :: m in ms ==> m.end <= r
    ensures r != 0 ==> exists m :: m in ms && m.end == r
  {
    if |ms| == 0 then 0 else Max(LatestEnd(ms[..|ms| - 1]), ms[|ms| - 1].end)
  }

  function SnapshotWindow(s: State, start: nat, now: nat, host: Host): Capture {
    var actual := Actual(s, start, now);
    var eventStart := Max(start, actual);
    Capture(Manifest(FORMAT_VERSION, actual, now, start, s.started,
                     LatestEnd(PieceMetrics(Pieces(Rollups(s), actual, eventStart, now))), None),
            host,
            Pieces(Segments(s), actual, eventStart, now))
  }

  // ----- the selection is a plain filter -----

  function EventsOf(gs: seq<Seg>): seq<Event> {
    if |gs| == 0 then [] else gs[0].events + EventsOf(gs[1..])
  }

  lemma {:induction false} SelectEventsConcat(a: seq<Event>, b: seq<Event>, lo: nat, hi: nat)
    ensures SelectEvents(a + b, lo, hi) == SelectEvents(a, lo, hi) + SelectEvents(b, lo, hi)
  {
    if |b| == 0 {
      assert a + b == a;
    } else {
      assert (a + b)[..|a + b| - 1] == a + b[..|b| - 1];
      SelectEventsConcat(a, b[..|b| - 1], lo, hi);
    }
  }

  lemma {:induction false} SelectMetricsConcat(a: seq<Metric>, b: seq<Metric>, lo: nat, hi: nat)
    ensures SelectMetrics(a + b, lo, hi) == SelectMetrics(a, lo, hi) + SelectMetrics(b, lo, hi)
  {
    if |b| == 0 {
      assert a + b == a;
    } else {
      assert (a + b)[..|a + b| - 1] == a + b[..|b| - 1];
      SelectMetricsConcat(a, b[..|b| - 1], lo, hi);
    }
  }

  lemma {:induction false} NoEvents(es: seq<Event>, lo: nat, hi: nat)
    requires forall e :: e in es ==> e.mono < lo || e.mono > hi
    ensures SelectEvents(es, lo, hi) == []
  {
    if |es| > 0 {
      assert es[|es| - 1] in es;
      NoEvents(es[..|es| - 1], lo, hi);
    }
  }

  lemma {:induction false} NoMetrics(ms: seq<Metric>, lo: nat, hi: nat)
    requires forall m :: m in ms ==> m.start < lo || m.end > hi
    ensures SelectMetrics(ms, lo, hi) == []
  {
    if |ms| > 0 {
      assert ms[|ms| - 1] in ms;
      NoMetrics(ms[..|ms| - 1], lo, hi);
    }
  }

  lemma {:induction false} AllEvents(es: seq<Event>, lo: nat, hi: nat)
    requires forall e :: e in es ==> lo <= e.mono <= hi
    ensures SelectEvents(es, lo, hi) == es
  {
    if |es| > 0 {
      assert es[|es| - 1] in es;
      AllEvents(es[..|es| - 1], lo, hi);
      assert es == es[..|es| - 1] + [es[|es| - 1]];
    }
  }

  lemma {:induction false} AllMetrics(ms: seq<Metric>, lo: nat, hi: nat)
    requires forall m :: m in ms ==> lo <= m.start && m.end <= hi
    ensures SelectMetrics(ms, lo, hi) == ms
  {
    if |ms| > 0 {
      assert ms[|ms| - 1] in ms;
      AllMetrics(ms[..|ms| - 1], lo, hi);
      assert ms == ms[..|ms| - 1] + [ms[|ms| - 1]];
    }
  }

  /** Skipping a segment by its extreme timestamps loses nothing. */
  lemma SkipLosesNothing(g: Seg, actual: nat, eventStart: nat, now: nat)
    requires WithinBounds(g) && actual <= eventStart && (g.maxNS < actual || g.minNS > now)
    ensures SelectEvents(g.events, eventStart, now) == [] && SelectMetrics(g.metrics, actual, now) == []
  {
    NoEvents(g.events, eventStart, now);
    NoMetrics(g.metrics, actual, now);
  }

  lemma {:induction false} PiecesExact(gs: seq<Seg>, actual: nat, eventStart: nat, now: nat)
    requires actual <= eventStart && forall g :: g in gs ==> WithinBounds(g)
    ensures var ps := Pieces(gs, actual, eventStart, now);
            PieceEvents(ps) == SelectEvents(EventsOf(gs), eventStart, now) &&
            PieceMetrics(ps) == SelectMetrics(MetricsOf(gs), actual, now)
  {
    if |gs| > 0 {
      var g, rest := gs[0], Pieces(gs[1..], actual, eventStart, now);
      assert g in gs;
      PiecesExact(gs[1..], actual, eventStart, now);
      SelectEventsConcat(g.events, EventsOf(gs[1..]), eventStart, now);
      SelectMetricsConcat(g.metrics, MetricsOf(gs[1..]), actual, now);
      if g.maxNS < actual || g.minNS > now {
        SkipLosesNothing(g, actual, eventStart, now);
        assert Pieces(gs, actual, eventStart, now) == rest;
      } else {
        var p := Select(g, actual, eventStart, now)[0];
        assert Pieces(gs, actual, eventStart, now) == [p] + rest;
        assert ([p] + rest)[1..] == rest;
      }
    }
  }

  lemma {:induction false} MetricsOfConcat(a: seq<Seg>, b: seq<Seg>)
    ensures MetricsOf(a + b) == MetricsOf(a) + MetricsOf(b)
  {
    if |a| == 0 {
      assert a + b == b;
    } else {
      assert (a + b)[1..] == a[1..] + b;
      MetricsOfConcat(a[1..], b);
    }
  }

  lemma TierMetrics(s: State)
    ensures MetricsOf(Rollups(s)) == RollupMetrics(s)
    ensures MetricsOf(Segments(s)) == Retained(s)
  {
    if s.rollupActive.Some? {
      MetricsOfAppend(s.rollups, s.rollupActive.value);
    }
    MetricsOfAppend(s.sealed, s.active);
    MetricsOfConcat(Rollups(s), RawSegments(s));
  }

  lemma SegmentsHold(s: State)
    requires Inv(s)
    ensures forall g :: g in Segments(s) ==> WithinBounds(g)
  {
  }

  /** Every observation of the retained history is selected exactly when it lies in the
      window, in retained order: details by their timestamp, aggregates by their whole interval. */
  lemma SnapshotExact(s: State, start: nat, now: nat, host: Host)
    requires Inv(s)
    ensures var c := SnapshotWindow(s, start, now, host);
            PieceEvents(c.segments) == SelectEvents(EventsOf(Segments(s)), Max(start, c.manifest.start), now) &&
            PieceMetrics(c.segments) == SelectMetrics(Retained(s), c.manifest.start, now)
  {
    SegmentsHold(s);
    TierMetrics(s);
    PiecesExact(Segments(s), Actual(s, start, now), Max(start, Actual(s, start, now)), now);
  }

  /** The actual start: the request, clamped to the oldest raw segment or rollup, widened to the
      earliest start of a rollup interval that strictly crosses it and ends within the window. */
  lemma ActualStart(s: State, start: nat, now: nat)
    requires start <= now
    ensures var a, b := Actual(s, start, now), Boundary(s, start, now);
            a <= b <= now && start <= b && (now >= RetainedFrom(s) ==> b >= RetainedFrom(s)) &&
            (a == b || exists m :: m in RollupMetrics(s) && Crosses(m, b, now) && m.start == a) &&
            forall m :: m in RollupMetrics(s) && Crosses(m, b, now) ==> a <= m.start
  {
  }

  /** Where the retained history begins: at the oldest raw segment, or earlier with a rollup. */
  function HistoryStart(s: State): nat {
    var raw, rollups := RawSegments(s), Rollups(s);
    if |rollups| > 0 && rollups[0].minNS < raw[0].start then rollups[0].minNS else raw[0].start
  }

  /** The start of a capture: the request if the history reaches back to it, otherwise the start of
      the history or the end of the window, and in either case no later than the first aggregate
      of the rollups that begins before it, ends after it and ends in the window. */
  lemma StartExact(s: State, start: nat, now: nat, host: Host)
    ensures var from := HistoryStart(s);
            var b := if from <= start then start else if from <= now then from else now;
            var a := SnapshotWindow(s, start, now, host).manifest.start;
            a <= b &&
            (forall m :: m in RollupMetrics(s) && m.start < b && b < m.end && m.end <= now ==> a <= m.start) &&
            (a < b ==> exists m :: m in RollupMetrics(s) && m.start == a && b < m.end && m.end <= now)
  {
    assert RetainedFrom(s) == HistoryStart(s);
  }

  /** The aggregate of the rollups lies in the window of the capture. */
  predicate Within(m: Metric, c: Capture) {
    c.manifest.start <= m.start && m.end <= c.manifest.end
  }

  /** What a capture says of itself: its window, the recording it comes from, and the time up to
      which it holds aggregates without detail, the latest end of a rollup aggregate in its window. */
  lemma ManifestExact(s: State, start: nat, now: nat, host: Host)
    requires Inv(s)
    ensures var c := SnapshotWindow(s, start, now, host);
            var m := c.manifest;
            c.host == host && m.formatVersion == 1 && m.requestedStart == start && m.end == now &&
            m.recordingStart == s.started && m.incident == None &&
            (forall r :: r in RollupMetrics(s) && Within(r, c) ==> r.end <= m.aggregateOnlyUntil) &&
            (m.aggregateOnlyUntil > 0 ==>
               exists r :: r in RollupMetrics(s) && Within(r, c) && r.end == m.aggregateOnlyUntil)
  {
    hide Actual, Pieces;
    SelectedRollups(s, start, now);
    forall m | m in RollupMetrics(s) ensures m.start <= m.end {
      TierMetrics(s);
      RollupsForward(s, m);
    }
  }

  lemma RollupsForward(s: State, m: Metric)
    requires Inv(s) && m in RollupMetrics(s)
    ensures m.start <= m.end
  {
    TierMetrics(s);
    SegmentsHold(s);
    assert forall g :: g in Rollups(s) ==> g in Segments(s);
    ForwardOf(Rollups(s), m);
  }

  /** A capture without mark holds no rollup aggregate that ends after time zero, and conversely. */
  lemma MarkedExactly(s: State, start: nat, now: nat, host: Host)
    requires Inv(s)
    ensures var c := SnapshotWindow(s, start, now, host);
            c.manifest.aggregateOnlyUntil == 0 <==>
              forall r :: r in RollupMetrics(s) && Within(r, c) ==> r.end == 0
  {
    hide SnapshotWindow, Inv, RollupMetrics;
    ManifestExact(s, start, now, host);
  }

  /** A saved segment is a retained one under its own start and end, and holds what of it lies in
      the window: details from `eventStart` on, aggregates as a whole from `lo` on. */
  ghost predicate Shown(p: Piece, g: Seg, lo: nat, eventStart: nat, hi: nat) {
    p.start == g.start && p.end == g.end &&
    (forall e :: e in p.events <==> e in g.events && eventStart <= e.mono <= hi) &&
    forall m :: m in p.metrics <==> m in g.metrics && lo <= m.start && m.end <= hi
  }

  predicate Outside(g: Seg, lo: nat, eventStart: nat, hi: nat) {
    (forall e :: e in g.events ==> e.mono < eventStart || hi < e.mono) &&
    forall m :: m in g.metrics ==> m.start < lo || hi < m.end
  }

  /** The pieces show the segments in order, apart from some that have nothing in the window. */
  ghost predicate Aligned(ps: seq<Piece>, gs: seq<Seg>, lo: nat, eventStart: nat, hi: nat)
    decreases |gs|
  {
    if |gs| == 0 then |ps| == 0
    else
      (Outside(gs[0], lo, eventStart, hi) && Aligned(ps, gs[1..], lo, eventStart, hi)) ||
      (|ps| > 0 && Shown(ps[0], gs[0], lo, eventStart, hi) && Aligned(ps[1..], gs[1..], lo, eventStart, hi))
  }

  /** The saved segments are the retained ones in order; one is left out only when nothing of it
      lies in the window. */
  lemma SegmentsExact(s: State, start: nat, now: nat, host: Host)
    requires Inv(s)
    ensures var c := SnapshotWindow(s, start, now, host);
            Aligned(c.segments, Segments(s), c.manifest.start, Max(start, c.manifest.start), now)
  {
    hide Inv, Actual, Shown, Outside;
    SegmentsHold(s);
    PiecesAligned(Segments(s), Actual(s, start, now), Max(start, Actual(s, start, now)), now);
  }

  lemma {:induction false} PiecesAligned(gs: seq<Seg>, actual: nat, eventStart: nat, now: nat)
    requires actual <= eventStart && forall g :: g in gs ==> WithinBounds(g)
    ensures Aligned(Pieces(gs, actual, eventStart, now), gs, actual, eventStart, now)
  {
    hide Shown, Outside, WithinBounds;
    if |gs| > 0 {
      var g, rest := gs[0], Pieces(gs[1..], actual, eventStart, now);
      assert g in gs;
      PiecesAligned(gs[1..], actual, eventStart, now);
      if g.maxNS < actual || g.minNS > now {
        SkippedOutside(g, actual, eventStart, now);
        assert [] + rest == rest;
      } else {
        SelectShown(g, actual, eventStart, now);
        var p := Select(g, actual, eventStart, now)[0];
        assert ([p] + rest)[1..] == rest;
      }
    }
  }

  lemma SelectShown(g: Seg, actual: nat, eventStart: nat, now: nat)
    requires !(g.maxNS < actual || g.minNS > now)
    ensures Shown(Select(g, actual, eventStart, now)[0], g, actual, eventStart, now)
  {
    SelectedEventsInWindow(g.events, eventStart, now);
    SelectedMetricsInWindow(g.metrics, actual, now);
  }

  lemma SkippedOutside(g: Seg, actual: nat, eventStart: nat, now: nat)
    requires WithinBounds(g) && actual <= eventStart && (g.maxNS < actual || g.minNS > now)
    ensures Outside(g, actual, eventStart, now)
  {
  }

  // ----- runs: nothing precedes the recording -----

  /** Segments and aggregates start no earlier than the recording. */
  predicate SinceStart(s: State) {
    s.started <= s.active.start &&
    (forall g :: g in s.sealed ==> s.started <= g.start) &&
    (forall g :: g in Rollups(s) ==> s.started <= g.minNS) &&
    (forall m :: m in Retained(s) ==> s.started <= m.start)
  }

  lemma FewerSinceStart(s: State, r: State)
    requires SinceStart(s) && r.started == s.started && r.active.start >= s.started
    requires forall g :: g in r.sealed ==> g in s.sealed
    requires forall g :: g in Rollups(r) ==> g in Rollups(s)
    requires forall m :: m in Retained(r) ==> m in Retained(s)
    ensures SinceStart(r)
  {
  }

  lemma SealSinceStart(s: State, now: nat)
    requires SinceStart(s) && s.active.start <= now
    ensures SinceStart(Seal(s, now))
  {
    MetricsOfAppend(s.sealed, s.active.(end := s.active.start + s.interval));
    assert Retained(Seal(s, now)) == Retained(s);
  }

  lemma DropRawSinceStart(s: State, memory: bool)
    requires SinceStart(s) && |s.sealed| > 0
    ensures SinceStart(DropRaw(s, memory))
  {
    var r := DropRaw(s, memory);
    assert RawMetrics(s) == s.sealed[0].metrics + RawMetrics(r);
    FewerSinceStart(s, r);
  }

  lemma DropRollupSinceStart(s: State, memory: bool)
    requires SinceStart(s) && HasRollup(s)
    ensures SinceStart(DropRollup(s, memory))
  {
    var r := DropRollup(s, memory);
    assert Retained(s) == (if |s.rollups| > 0 then s.rollups[0] else s.rollupActive.value).metrics + Retained(r);
    FewerSinceStart(s, r);
  }

  lemma {:induction false} AddAllSince(a: Seg, ms: seq<Metric>, from: nat)
    requires a.minNS >= from && forall m :: m in a.metrics + ms ==> m.start >= from
    ensures AddAll(a, ms).minNS >= from && forall m :: m in AddAll(a, ms).metrics ==> m.start >= from
    decreases |ms|
  {
    if |ms| > 0 {
      var r := AddToRollup(a, ms[0]);
      assert ms[0] in a.metrics + ms;
      var i := MergeIndex(a.metrics, ms[0]);
      forall m | m in r.metrics
        ensures m.start >= from
      {
        var k :| 0 <= k < |r.metrics| && r.metrics[k] == m;
        if k < |a.metrics| {
          assert a.metrics[k] in a.metrics + ms;
        }
      }
      forall m | m in r.metrics + ms[1..]
        ensures m.start >= from
      {
        assert m in r.metrics || m in a.metrics + ms;
      }
      AddAllSince(r, ms[1..], from);
    }
  }

  lemma CompactSinceStart(s: State)
    requires SinceStart(s) && |s.sealed| > 0
    ensures SinceStart(CompactOldest(s))
  {
    var ms, t := s.sealed[0].metrics, DropRaw(s, true);
    DropRawSinceStart(s, true);
    assert RawMetrics(s) == ms + RawMetrics(t);
    assert forall m :: m in ms ==> m in Retained(s);
    if |ms| > 0 {
      OpenSinceStart(t, s.sealed[0]);
      AddMetricsSinceStart(OpenRollup(t, s.sealed[0]), ms);
    }
  }

  lemma OpenSinceStart(t: State, oldest: Seg)
    requires SinceStart(t) && |oldest.metrics| > 0 && forall m :: m in oldest.metrics ==> m.start >= t.started
    ensures SinceStart(OpenRollup(t, oldest))
  {
    var u := OpenRollup(t, oldest);
    assert oldest.metrics[0] in oldest.metrics;
    if t.rollupActive.Some? {
      MetricsOfAppend(t.rollups, t.rollupActive.value);
    }
    assert Retained(u) == Retained(t);
  }

  lemma AddMetricsSinceStart(u: State, ms: seq<Metric>)
    requires SinceStart(u) && u.rollupActive.Some? && forall m :: m in ms ==> m.start >= u.started
    ensures SinceStart(AddMetrics(u, ms))
  {
    var a, r := u.rollupActive.value, AddMetrics(u, ms);
    assert a in Rollups(u);
    assert forall m :: m in a.metrics ==> m in Retained(u);
    AddAllSince(a, ms, u.started);
    forall m | m in Retained(r)
      ensures m.start >= u.started
    {
      assert m in AddAll(a, ms).metrics || m in Retained(u);
    }
  }

  lemma {:induction false} ExpireSealedSinceStart(s: State, now: nat)
    requires SinceStart(s)
    ensures SinceStart(ExpireSealed(s, now))
    decreases |s.sealed|
  {
    if |s.sealed| > 0 && Aged(s.sealed[0].end, now, s.history) {
      DropRawSinceStart(s, false);
      ExpireSealedSinceStart(DropRaw(s, false), now);
    }
  }

  lemma {:induction false} ExpireRollupsSinceStart(s: State, now: nat)
    requires SinceStart(s)
    ensures SinceStart(ExpireRollups(s, now))
    decreases |s.rollups|
  {
    if |s.rollups| > 0 && Aged(s.rollups[0].end, now, s.history) {
      DropRollupSinceStart(s, false);
      ExpireRollupsSinceStart(DropRollup(s, false), now);
    }
  }

  lemma {:induction false} FoldSinceStart(s: State, cost: nat)
    requires SinceStart(s)
    ensures SinceStart(FoldUntilFits(s, cost))
    decreases |s.sealed|
  {
    if s.bytes + cost > s.max && |s.sealed| > 0 {
      CompactSinceStart(s);
      FoldSinceStart(CompactOldest(s), cost);
    }
  }

  lemma {:induction false} EvictSinceStart(s: State, cost: nat)
    requires SinceStart(s)
    ensures SinceStart(EvictUntilFits(s, cost))
    decreases RollupCount(s)
  {
    if s.bytes + cost > s.max && HasRollup(s) {
      DropRollupSinceStart(s, true);
      EvictSinceStart(DropRollup(s, true), cost);
    }
  }

  lemma AdvanceSinceStart(s: State, now: nat)
    requires SinceStart(s)
    ensures SinceStart(Advance(s, now))
  {
    hide SinceStart;
    if now >= s.active.start {
      var a := Seal(s, now);
      SealSinceStart(s, now);
      ExpireSealedSinceStart(a, now);
      ExpireRollupsSinceStart(ExpireSealed(a, now), now);
      var b := ExpireRollups(ExpireSealed(a, now), now);
      if b.rollupActive.Some? {
        DropRollupSinceStart(b, false);
      }
      FoldSinceStart(Expire(a, now), 0);
      EvictSinceStart(FoldUntilFits(Expire(a, now), 0), 0);
    }
  }

  lemma ActiveSinceStart(s: State, r: State)
    requires SinceStart(s) && r.started == s.started && r.sealed == s.sealed && r.active.start == s.active.start
    requires r.rollups == s.rollups && r.rollupActive == s.rollupActive
    requires forall m :: m in r.active.metrics ==> m in s.active.metrics || m.start >= s.started
    ensures SinceStart(r)
  {
    forall m | m in Retained(r)
      ensures m.start >= r.started
    {
      assert m in Retained(s) || m in r.active.metrics;
      assert m in s.active.metrics ==> m in Retained(s);
    }
  }

  lemma EventSinceStart(s: State, e: Event, now: nat)
    requires Buffered(s) && SinceStart(s)
    ensures SinceStart(AcceptEvent(s, e, now)) && AcceptEvent(s, e, now).started == s.started
  {
    hide SinceStart, Advance;
    AdvanceFrame(s, now);
    AdvanceKeepsBuffers(s, now);
    AdvanceSinceStart(s, now);
    var t := Advance(s, now);
    var cost := EventCost(t.active, e);
    FoldSinceStart(t, cost);
    FoldFrame(t, cost);
    var u := Room(t, cost, false);
    ActiveSinceStart(t, Drop(t));
    ActiveSinceStart(u, Drop(u));
    ActiveSinceStart(u, AddEvent(u, e));
  }

  lemma MetricSinceStart(s: State, m: Metric, now: nat)
    requires Buffered(s) && SinceStart(s) && m.start >= s.started
    ensures SinceStart(AcceptMetric(s, m, now)) && AcceptMetric(s, m, now).started == s.started
  {
    hide SinceStart, Advance;
    AdvanceFrame(s, now);
    AdvanceKeepsBuffers(s, now);
    AdvanceSinceStart(s, now);
    var t := Advance(s, now);
    var cost := MetricCost(t.active, m);
    FoldSinceStart(t, cost);
    FoldFrame(t, cost);
    EvictSinceStart(FoldUntilFits(t, cost), cost);
    EvictFrame(FoldUntilFits(t, cost), cost);
    var u := Room(t, cost, true);
    ActiveSinceStart(u, Drop(u));
    ActiveSinceStart(u, AddMetric(u, m));
  }

  lemma StepSinceStart(s: State, op: Op)
    requires Buffered(s) && SinceStart(s) && (op.Aggregate? ==> op.metric.start >= s.started)
    ensures SinceStart(Step(s, op)) && Step(s, op).started == s.started
  {
    hide SinceStart, AcceptEvent, AcceptMetric;
    match op
    case Tick(now) =>
      AdvanceFrame(s, now);
      AdvanceSinceStart(s, now);
    case Detail(e, now) => EventSinceStart(s, e, now);
    case Aggregate(m, now) => MetricSinceStart(s, m, now);
  }

  lemma {:induction false} RunSinceStart(s: State, ops: seq<Op>)
    requires Buffered(s) && SinceStart(s)
    requires forall op :: op in ops && op.Aggregate? ==> op.metric.start >= s.started
    ensures SinceStart(Run(s, ops)) && Run(s, ops).started == s.started
    decreases |ops|
  {
    if |ops| > 0 {
      assert ops[0] in ops;
      StepSinceStart(s, ops[0]);
      StepKeepsBuffers(s, ops[0]);
      RunSinceStart(Step(s, ops[0]), ops[1..]);
    }
  }

  // ----- what the reader checks -----

  lemma RetainedSince(s: State)
    requires Inv(s) && SinceStart(s)
    ensures s.started <= RetainedFrom(s)
  {
    if |s.rollups| > 0 {
      assert s.rollups[0] in Rollups(s);
    } else if s.rollupActive.Some? {
      assert s.rollupActive.value in Rollups(s);
    }
  }

  lemma {:induction false} SelectedEventsInWindow(es: seq<Event>, lo: nat, hi: nat)
    ensures forall e :: e in SelectEvents(es, lo, hi) <==> e in es && lo <= e.mono <= hi
  {
    if |es| > 0 {
      SelectedEventsInWindow(es[..|es| - 1], lo, hi);
      assert es == es[..|es| - 1] + [es[|es| - 1]];
    }
  }

  lemma {:induction false} SelectedMetricsInWindow(ms: seq<Metric>, lo: nat, hi: nat)
    ensures forall m :: m in SelectMetrics(ms, lo, hi) <==> m in ms && m.start >= lo && m.end <= hi
  {
    if |ms| > 0 {
      SelectedMetricsInWindow(ms[..|ms| - 1], lo, hi);
      assert ms == ms[..|ms| - 1] + [ms[|ms| - 1]];
    }
  }

  lemma {:induction false} PiecesInWindow(gs: seq<Seg>, actual: nat, eventStart: nat, now: nat)
    requires actual <= eventStart && forall g :: g in gs ==> WithinBounds(g)
    ensures forall p :: p in Pieces(gs, actual, eventStart, now) ==>
              (forall e :: e in p.events ==> actual <= e.mono <= now) &&
              (forall m :: m in p.metrics ==> actual <= m.start <= m.end <= now)
  {
    if |gs| > 0 {
      assert gs[0] in gs;
      SelectedEventsInWindow(gs[0].events, eventStart, now);
      SelectedMetricsInWindow(gs[0].metrics, actual, now);
      PiecesInWindow(gs[1..], actual, eventStart, now);
    }
  }

  /** A start widened below the request is backed by a selected aggregate past the request. */
  lemma WideningIsMarked(s: State, start: nat, now: nat)
    requires Inv(s) && start <= now
    ensures var a := Actual(s, start, now);
            var until := LatestEnd(PieceMetrics(Pieces(Rollups(s), a, Max(start, a), now)));
            (start > a ==> until > start) && (until != 0 ==> a <= until <= now)
  {
    var a := Actual(s, start, now);
    SelectedRollups(s, start, now);
    var selected := PieceMetrics(Pieces(Rollups(s), a, Max(start, a), now));
    if start > a {
      var m :| m in RollupMetrics(s) && Crosses(m, Boundary(s, start, now), now) && m.start == a;
      assert m in selected;
    }
  }

  lemma SelectedRollups(s: State, start: nat, now: nat)
    requires Inv(s)
    ensures var a := Actual(s, start, now);
            forall m :: m in PieceMetrics(Pieces(Rollups(s), a, Max(start, a), now)) <==>
              m in RollupMetrics(s) && a <= m.start <= m.end <= now
  {
    var a := Actual(s, start, now);
    SegmentsHold(s);
    TierMetrics(s);
    assert forall g :: g in Rollups(s) ==> g in Segments(s);
    PiecesExact(Rollups(s), a, Max(start, a), now);
    SelectedMetricsInWindow(RollupMetrics(s), a, now);
    forall m | m in RollupMetrics(s)
      ensures m.start <= m.end
    {
      ForwardOf(Rollups(s), m);
    }
  }

  lemma {:induction false} ForwardOf(gs: seq<Seg>, m: Metric)
    requires (forall g :: g in gs ==> WithinBounds(g)) && m in MetricsOf(gs)
    ensures m.start <= m.end
  {
    assert gs[0] in gs;
    if m !in gs[0].metrics {
      ForwardOf(gs[1..], m);
    }
  }

  /** Every capture selected from a reachable history passes the reader's window rules. */
  lemma SnapshotAgrees(s: State, start: nat, now: nat, host: Host)
    requires Inv(s) && SinceStart(s) && start <= now && s.started <= now
    ensures WindowsAgree(SnapshotWindow(s, start, now, host))
  {
    var a := Actual(s, start, now);
    ActualStart(s, start, now);
    RetainedSince(s);
    SegmentsHold(s);
    WideningIsMarked(s, start, now);
    PiecesInWindow(Segments(s), a, Max(start, a), now);
    assert s.started <= a by {
      if a < Boundary(s, start, now) {
        var m :| m in RollupMetrics(s) && m.start == a;
        assert m in Retained(s);
      }
    }
  }

  lemma NewSinceStart(history: nat, max: nat, interval: nat, now: nat)
    ensures SinceStart(New(history, max, interval, now))
  {
    assert Retained(New(history, max, interval, now)) == [];
  }

  /** Over any run of the recorder, every window ending after the recording began. */
  lemma RunSnapshotAgrees(history: nat, max: nat, interval: nat, started: nat, ops: seq<Op>,
                          start: nat, now: nat, host: Host)
    requires SEGMENT_COST <= max && start <= now && started <= now
    requires forall op :: op in ops ==> Legal(op) && (op.Aggregate? ==> op.metric.start >= started)
    ensures WindowsAgree(SnapshotWindow(Run(New(history, max, interval, started), ops), start, now, host))
  {
    hide Inv, SinceStart, WindowsAgree, Run;
    var s := New(history, max, interval, started);
    NewHolds(history, max, interval, started);
    NewSinceStart(history, max, interval, started);
    RunHolds(s, ops);
    RunSinceStart(s, ops);
    SnapshotAgrees(Run(s, ops), start, now, host);
  }

  /** Over any run of the recorder, a snapshot is exactly the plain filter of its history. */
  lemma RunSnapshotExact(history: nat, max: nat, interval: nat, started: nat, ops: seq<Op>,
                         start: nat, now: nat, host: Host)
    requires SEGMENT_COST <= max && forall op :: op in ops ==> Legal(op)
    ensures var s := Run(New(history, max, interval, started), ops);
            var c := SnapshotWindow(s, start, now, host);
            PieceEvents(c.segments) == SelectEvents(EventsOf(Segments(s)), Max(start, c.manifest.start), now) &&
            PieceMetrics(c.segments) == SelectMetrics(Retained(s), c.manifest.start, now)
  {
    NewHolds(history, max, interval, started);
    RunHolds(New(history, max, interval, started), ops);
    SnapshotExact(Run(New(history, max, interval, started), ops), start, now, host);
  }
}
