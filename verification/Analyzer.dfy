/** The analyzer's per-family totals over a capture, and how they relate to what was accepted. */
module Analyzer {
  import opened Telemetry
  import opened CaptureModel
  import opened RecorderSpec
  import R = RecorderInvariant
  import opened RecorderConservation
  import S = SnapshotSpec
  import opened SnapshotCoverage

  /** The totals of one family. Sizes in bytes are not reported. */
  datatype Summary = Summary(tally: Tally, covered: int)

  function Blank(): Summary {
    Summary(Zero(), 0)
  }

  function WithoutBytes(t: Tally): Tally {
    t[BYTES := 0]
  }

  /** What a family's summary should say of a set of aggregates. */
  function SummaryOf(ms: seq<Metric>, family: string): Summary {
    Summary(WithoutBytes(Sum(ms, family, 0).tally), Sum(ms, family, 0).covered)
  }

  /** Adds every counter but the size. */
  method Accumulate(s: Summary, m: Metric) returns (r: Summary)
    requires s.tally[BYTES] == 0
    ensures r == Summary(WithoutBytes(Plus(s.tally, m.tally)), s.covered + m.end - m.start)
  {
    var t: seq<Word> := s.tally;
    for i := 0 to SLOTS
      invariant |t| == SLOTS
      invariant forall k :: 0 <= k < i ==> t[k] == if k == BYTES then 0 else Add(s.tally[k], m.tally[k])
      invariant forall k :: i <= k < SLOTS ==> t[k] == s.tally[k]
    {
      if i != BYTES {
        t := t[i := Add(t[i], m.tally[i])];
      }
    }
    assert t == WithoutBytes(Plus(s.tally, m.tally));
    return Summary(t, s.covered + (m.end - m.start));
  }

  /** One more aggregate in a family's sum. */
  lemma SummaryNext(ms: seq<Metric>, m: Metric, family: string)
    ensures SummaryOf(ms + [m], family) ==
              if m.family == family
              then Summary(WithoutBytes(Plus(SummaryOf(ms, family).tally, m.tally)),
                           SummaryOf(ms, family).covered + m.end - m.start)
              else SummaryOf(ms, family)
  {
    SumConcat(ms, [m], family, 0);
    SumOne(m, family, 0);
    var t := Sum(ms, family, 0).tally;
    if m.family == family {
      assert WithoutBytes(Plus(t, m.tally)) == WithoutBytes(Plus(WithoutBytes(t), m.tally));
    } else {
      PlusLaws(t, Zero(), Zero());
    }
  }

  ghost predicate Totals(sums: map<string, Summary>, ms: seq<Metric>) {
    (forall f :: f in sums <==> f in FAMILIES) && forall f :: f in sums ==> sums[f] == SummaryOf(ms, f)
  }

  lemma NoTotals()
    ensures forall f: string :: SummaryOf([], f) == Blank()
  {
    assert WithoutBytes(Zero()) == Zero();
  }

  method NewSummaries() returns (sums: map<string, Summary>)
    ensures Totals(sums, [])
  {
    sums := map[];
    for i := 0 to |FAMILIES|
      invariant forall f :: f in sums <==> f in FAMILIES[..i]
      invariant forall f :: f in sums ==> sums[f] == Blank()
    {
      assert FAMILIES[..i + 1] == FAMILIES[..i] + [FAMILIES[i]];
      sums := sums[FAMILIES[i] := Blank()];
    }
    NoTotals();
  }

  /** Aggregates of unknown families are ignored. */
  method AddMetric(sums: map<string, Summary>, m: Metric, ghost ms: seq<Metric>) returns (r: map<string, Summary>)
    requires Totals(sums, ms)
    ensures Totals(r, ms + [m])
  {
    hide SummaryOf, FAMILIES;
    r := sums;
    if m.family in sums {
      SummaryBytes(ms, m.family);
      var s := Accumulate(sums[m.family], m);
      r := sums[m.family := s];
    }
    forall f | f in sums ensures f in r && r[f] == SummaryOf(ms + [m], f) {
      SummaryNext(ms, m, f);
    }
  }

  lemma SummaryBytes(ms: seq<Metric>, family: string)
    ensures SummaryOf(ms, family).tally[BYTES] == 0
  {
  }

  /** Adds one segment's aggregates. */
  method AddPiece(sums: map<string, Summary>, p: Piece, ghost done: seq<Metric>) returns (r: map<string, Summary>)
    requires Totals(sums, done)
    ensures Totals(r, done + p.metrics)
  {
    hide Totals;
    r := sums;
    assert done + p.metrics[..0] == done;
    for k := 0 to |p.metrics|
      invariant Totals(r, done + p.metrics[..k])
    {
      assert done + p.metrics[..k + 1] == done + p.metrics[..k] + [p.metrics[k]];
      r := AddMetric(r, p.metrics[k], done + p.metrics[..k]);
    }
    assert p.metrics[..|p.metrics|] == p.metrics;
  }

  lemma PieceNext(segments: seq<Piece>, i: nat)
    requires i < |segments|
    ensures PieceMetrics(segments[i..]) == segments[i].metrics + PieceMetrics(segments[i + 1..])
  {
    assert segments[i..][0] == segments[i] && segments[i..][1..] == segments[i + 1..];
  }

  /** The totals of a capture are, family by family, the sums over all its aggregates. */
  method Summarize(segments: seq<Piece>) returns (sums: map<string, Summary>)
    ensures Totals(sums, PieceMetrics(segments))
  {
    hide Totals;
    sums := NewSummaries();
    ghost var done: seq<Metric> := [];
    assert segments[0..] == segments;
    for i := 0 to |segments|
      invariant Totals(sums, done) && done + PieceMetrics(segments[i..]) == PieceMetrics(segments)
    {
      PieceNext(segments, i);
      sums := AddPiece(sums, segments[i], done);
      done := done + segments[i].metrics;
    }
    assert PieceMetrics(segments[|segments|..]) == [];
    assert done + [] == done;
  }

  /** Any number of folds leaves every family's totals over the retained history as they were.
      Which of it a capture holds may still change: folding brings straddlers back, as
      `SnapshotCoverage.StraddlerIsLeftOut` shows. */
  lemma FoldsUnchanged(s: State, cost: nat, family: string)
    requires R.Inv(s)
    ensures SummaryOf(Retained(FoldUntilFits(s, cost)), family) == SummaryOf(Retained(s), family)
  {
    FoldKeeps(s, cost, family, 0);
  }

  /** The summary of two sets of aggregates taken together. */
  function Together(a: Summary, b: Summary): Summary {
    Summary(Plus(a.tally, b.tally), a.covered + b.covered)
  }

  lemma SummaryJoins(all: seq<Metric>, a: seq<Metric>, b: seq<Metric>, family: string)
    requires Sum(all, family, 0) == Join(Sum(a, family, 0), Sum(b, family, 0))
    ensures SummaryOf(all, family) == Together(SummaryOf(a, family), SummaryOf(b, family))
  {
    hide Sum, Plus;
    WithoutBytesJoins(Sum(a, family, 0).tally, Sum(b, family, 0).tally);
  }

  lemma WithoutBytesJoins(x: Tally, y: Tally)
    ensures WithoutBytes(Plus(x, y)) == Plus(WithoutBytes(x), WithoutBytes(y))
  {
  }

  /** The totals reported for a capture of everything, and those of what it leaves out, make up
      the totals of everything accepted and neither expired nor evicted. Nothing is left out
      exactly when every retained aggregate starts within the retained detail or no earlier than
      a rollup interval crossing the capture's start. */
  lemma FullCaptureTotals(s: State, now: nat, host: Host, family: string)
    requires R.Inv(s) && forall m :: m in Retained(s) ==> m.end <= now
    ensures var c := S.SnapshotWindow(s, 0, now, host);
            var left := LeftOut(Retained(s), c.manifest.start, now);
            SummaryOf(Retained(s), family) ==
              Together(SummaryOf(PieceMetrics(c.segments), family), SummaryOf(left, family)) &&
            (left == [] <==> forall m :: m in Retained(s) ==> InReach(s, 0, now, m))
  {
    hide R.Inv, Retained, S.Pieces, S.Boundary, Join, Sum, SummaryOf, Together, InReach;
    CaptureSplitsTotals(s, 0, now, host, family, 0);
    var c := S.SnapshotWindow(s, 0, now, host);
    SummaryJoins(Retained(s), PieceMetrics(c.segments), LeftOut(Retained(s), c.manifest.start, now), family);
    NothingLeftOut(Retained(s), c.manifest.start, now);
    forall m | m in Retained(s) ensures m.start >= c.manifest.start <==> InReach(s, 0, now, m) {
      ReachExact(s, 0, now, m);
    }
  }

  lemma NothingLeftOut(ms: seq<Metric>, lo: nat, hi: nat)
    ensures LeftOut(ms, lo, hi) == [] <==> forall m :: m in ms ==> m.start >= lo && m.end <= hi
  {
    LeftOutMembers(ms, lo, hi);
    if LeftOut(ms, lo, hi) != [] {
      assert LeftOut(ms, lo, hi)[0] in LeftOut(ms, lo, hi);
    }
  }

  /** Over any steadily polled run: what a capture of everything fails to report is at most one
      straddling interval of each family, and nothing once the recorder holds a rollup. */
  lemma PolledTotals(history: nat, max: nat, interval: nat, started: nat, ops: seq<Op>, now: nat, host: Host,
                     family: string)
    requires SEGMENT_COST <= max && forall op :: op in ops ==> Legal(op)
    requires PollsSteadily(ops, started) && Order(Offered(ops))
    requires forall m :: m in Retained(Run(New(history, max, interval, started), ops)) ==> m.end <= now
    ensures var s := Run(New(history, max, interval, started), ops);
            var reported := SummaryOf(PieceMetrics(S.SnapshotWindow(s, 0, now, host).segments), family);
            (HasRollup(s) ==> reported == SummaryOf(Retained(s), family)) &&
            (reported == SummaryOf(Retained(s), family) ||
             exists m :: m in RawMetrics(s) && m.family == family && m.start < DetailFrom(s) <= m.end &&
               SummaryOf(Retained(s), family) == Together(reported, SummaryOf([m], family)))
  {
    var s := Run(New(history, max, interval, started), ops);
    hide *;
    PolledCaptureLeavesStraddlers(history, max, interval, started, ops, now, host, family, 0);
    var c := S.SnapshotWindow(s, 0, now, host);
    var left := LeftOut(Retained(s), c.manifest.start, now);
    SummaryJoins(Retained(s), PieceMetrics(c.segments), left, family);
    OneShort(Retained(s), PieceMetrics(c.segments), left, family);
  }

  lemma OneShort(all: seq<Metric>, held: seq<Metric>, left: seq<Metric>, family: string)
    requires SummaryOf(all, family) == Together(SummaryOf(held, family), SummaryOf(left, family))
    requires forall i, j :: 0 <= i < j < |left| ==> left[i].family != left[j].family
    ensures left == [] ==> SummaryOf(all, family) == SummaryOf(held, family)
    ensures SummaryOf(all, family) == SummaryOf(held, family) ||
            exists m :: m in left && m.family == family &&
              SummaryOf(all, family) == Together(SummaryOf(held, family), SummaryOf([m], family))
  {
    OnePerFamily(left, family);
    TogetherBlank(SummaryOf(held, family), held, family);
    hide SummaryOf, Together, Blank;
  }

  lemma TogetherBlank(a: Summary, ms: seq<Metric>, family: string)
    requires a == SummaryOf(ms, family)
    ensures Together(a, Blank()) == a
  {
    PlusLaws(a.tally, Zero(), Zero());
  }

  /** With at most one aggregate of each family, a family's summary is that of its one aggregate. */
  lemma {:induction false} OnePerFamily(ms: seq<Metric>, family: string)
    requires forall i, j :: 0 <= i < j < |ms| ==> ms[i].family != ms[j].family
    ensures if forall m :: m in ms ==> m.family != family then SummaryOf(ms, family) == Blank()
            else exists m :: m in ms && m.family == family && SummaryOf(ms, family) == SummaryOf([m], family)
  {
    hide SummaryOf, Blank;
    if |ms| == 0 {
      NoTotals();
    } else {
      var front, m := ms[..|ms| - 1], ms[|ms| - 1];
      assert ms == front + [m];
      assert forall q :: q in ms <==> q in front || q == m;
      OnePerFamily(front, family);
      if m.family == family {
        forall q | q in front ensures q.family != family {
          var k :| 0 <= k < |front| && front[k] == q;
          assert ms[k] == q && ms[|ms| - 1] == m;
        }
        OnlyOne(front, m, family);
      } else {
        SummaryNext(front, m, family);
      }
    }
  }

  lemma OnlyOne(front: seq<Metric>, m: Metric, family: string)
    requires m.family == family && SummaryOf(front, family) == Blank()
    ensures SummaryOf(front + [m], family) == SummaryOf([m], family)
  {
    hide SummaryOf, Blank;
    SummaryNext(front, m, family);
    SummaryNext([], m, family);
    NoTotals();
    assert [] + [m] == [m];
  }
}

/** Interval counters from cumulative kernel counters. */
module SensorDeltas {
  import opened Telemetry

  /** The cumulative counters of a sensor: the sum over its CPUs. */
  function Cumulative(perCPU: seq<Tally>): Tally {
    if |perCPU| == 0 then Zero() else Plus(Cumulative(perCPU[..|perCPU| - 1]), perCPU[|perCPU| - 1])
  }

  function Delta(n: Word, p: Word): (r: Word)
    ensures r <= n && (n >= p ==> r + p == n) && (n < p ==> r == 0)
  {
    if n < p then 0 else n - p
  }

  function Deltas(n: Tally, p: Tally): Tally {
    seq(SLOTS, i requires 0 <= i < SLOTS => Delta(n[i], p[i]))
  }

  class KernelSensor {
    var previous: Tally

    constructor ()
      ensures previous == Zero()
    {
      previous := Zero();
    }

    /** Reports what was counted since the previous snapshot. */
    method Snapshot(perCPU: seq<Tally>) returns (m: Tally)
      modifies this
      ensures previous == Cumulative(perCPU) && m == Deltas(Cumulative(perCPU), old(previous))
    {
      var sum := Zero();
      for i := 0 to |perCPU|
        invariant sum == Cumulative(perCPU[..i])
      {
        assert perCPU[..i + 1][..i] == perCPU[..i];
        sum := Plus(sum, perCPU[i]);
      }
      assert perCPU[..|perCPU|] == perCPU;
      var p := previous;
      previous := sum;
      m := Deltas(sum, p);
    }
  }

  predicate NoneBack(p: Tally, n: Tally) {
    forall k :: 0 <= k < SLOTS ==> p[k] <= n[k]
  }

  predicate Grows(readings: seq<Tally>) {
    forall i, j :: 0 <= i <= j < |readings| ==> NoneBack(readings[i], readings[j])
  }

  /** All interval counters over successive readings, added up. */
  function Reported(readings: seq<Tally>): Tally {
    if |readings| <= 1 then Zero()
    else
      var n := |readings| - 1;
      Plus(Reported(readings[..n]), Deltas(readings[n], readings[n - 1]))
  }

  /** While counters do not go back, the intervals add up to exactly what was counted between
      the first reading and the last: nothing is reported twice and nothing is missed. */
  lemma {:induction false} DeltasTelescope(readings: seq<Tally>)
    requires |readings| > 0 && Grows(readings)
    ensures Reported(readings) == Deltas(readings[|readings| - 1], readings[0])
    decreases |readings|
  {
    var n := |readings| - 1;
    if n == 0 {
      assert Deltas(readings[0], readings[0]) == Zero();
    } else {
      DeltasTelescope(readings[..n]);
      assert NoneBack(readings[0], readings[n - 1]) && NoneBack(readings[n - 1], readings[n]);
      assert Reported(readings) == Deltas(readings[n], readings[0]);
    }
  }
}
