/** Which retained aggregates a capture holds: exactly when one is left out, what that does to
    the totals, and why polling leaves out at most one per family. */
module SnapshotCoverage {
  import opened Telemetry
  import opened CaptureModel
  import opened RecorderSpec
  import opened RecorderInvariant
  import opened RecorderConservation
  import opened SnapshotSpec

  // ----- one aggregate -----

  /** The interval starts within the retained part of the window, or no earlier than a rollup
      interval that crosses its start. */
  ghost predicate InReach(s: State, start: nat, now: nat, m: Metric) {
    m.start >= Boundary(s, start, now) ||
    exists r :: r in RollupMetrics(s) && Crosses(r, Boundary(s, start, now), now) && r.start <= m.start
  }

  /** A retained aggregate is captured exactly when it ends in the window and is in reach. */
  lemma CapturedExactly(s: State, start: nat, now: nat, host: Host, m: Metric)
    requires Inv(s) && start <= now && m in Retained(s)
    ensures m in PieceMetrics(SnapshotWindow(s, start, now, host).segments) <==>
              m.end <= now && InReach(s, start, now, m)
  {
    hide Inv, Boundary, Retained, Pieces;
    SnapshotExact(s, start, now, host);
    SelectedMetricsInWindow(Retained(s), Actual(s, start, now), now);
    ReachExact(s, start, now, m);
  }

  lemma ReachExact(s: State, start: nat, now: nat, m: Metric)
    ensures m.start >= Actual(s, start, now) <==> InReach(s, start, now, m)
  {
  }

  // ----- a capture of everything -----

  lemma SelectsAll(ms: seq<Metric>, lo: nat, hi: nat)
    ensures SelectMetrics(ms, lo, hi) == ms <==> forall m :: m in ms ==> m.start >= lo && m.end <= hi
  {
    SelectedMetricsInWindow(ms, lo, hi);
    if forall m :: m in ms ==> m.start >= lo && m.end <= hi {
      AllMetrics(ms, lo, hi);
    }
  }

  /** A capture from zero past every retained end holds every retained aggregate exactly when all
      of them are in reach. */
  lemma FullCaptureExact(s: State, now: nat, host: Host)
    requires Inv(s) && forall m :: m in Retained(s) ==> m.end <= now
    ensures PieceMetrics(SnapshotWindow(s, 0, now, host).segments) == Retained(s) <==>
              forall m :: m in Retained(s) ==> InReach(s, 0, now, m)
  {
    hide Inv, Boundary, Retained, Pieces, InReach;
    SnapshotExact(s, 0, now, host);
    SelectsAll(Retained(s), Actual(s, 0, now), now);
    forall m | m in Retained(s) ensures m.start >= Actual(s, 0, now) <==> InReach(s, 0, now, m) {
      ReachExact(s, 0, now, m);
    }
  }

  /** Without rollups: exactly when no raw aggregate starts before the oldest raw segment. */
  lemma FullRawCaptureExact(s: State, now: nat, host: Host)
    requires Inv(s) && !HasRollup(s) && DetailFrom(s) <= now && forall m :: m in Retained(s) ==> m.end <= now
    ensures PieceMetrics(SnapshotWindow(s, 0, now, host).segments) == Retained(s) <==>
              forall m :: m in RawMetrics(s) ==> m.start >= DetailFrom(s)
  {
    FullCaptureExact(s, now, host);
    assert RollupMetrics(s) == [] && Retained(s) == RawMetrics(s);
    hide Inv, RawMetrics, Retained, DetailFrom;
    assert Boundary(s, 0, now) == DetailFrom(s);
  }

  /** The aggregates a window does not select, in retained order. */
  function LeftOut(ms: seq<Metric>, lo: nat, hi: nat): seq<Metric> {
    if |ms| == 0 then []
    else
      var m := ms[|ms| - 1];
      LeftOut(ms[..|ms| - 1], lo, hi) + (if m.start >= lo && m.end <= hi then [] else [m])
  }

  lemma {:induction false} SelectionSplits(ms: seq<Metric>, lo: nat, hi: nat, family: string, instant: nat)
    ensures Sum(ms, family, instant) ==
              Join(Sum(SelectMetrics(ms, lo, hi), family, instant), Sum(LeftOut(ms, lo, hi), family, instant))
  {
    if |ms| == 0 {
      JoinLaws(Nothing(), Nothing(), Nothing());
    } else {
      hide Join, Sum;
      var front, m := ms[..|ms| - 1], ms[|ms| - 1];
      assert ms == front + [m];
      SelectionSplits(front, lo, hi, family, instant);
      SumConcat(front, [m], family, instant);
      var a, b := SelectMetrics(front, lo, hi), LeftOut(front, lo, hi);
      if m.start >= lo && m.end <= hi {
        SumConcat(a, [m], family, instant);
        assert b + [] == b;
      } else {
        SumConcat(b, [m], family, instant);
        assert a + [] == a;
      }
      Rearranged(Sum(a, family, instant), Sum(b, family, instant), Sum([m], family, instant));
    }
  }

  lemma Rearranged(a: Account, b: Account, c: Account)
    ensures Join(Join(a, b), c) == Join(Join(a, c), b) == Join(a, Join(b, c))
  {
    JoinLaws(a, b, c);
    JoinLaws(a, c, b);
    JoinLaws(b, c, a);
  }

  /** The totals of any capture and of what it leaves out are the totals of everything retained. */
  lemma CaptureSplitsTotals(s: State, start: nat, now: nat, host: Host, family: string, instant: nat)
    requires Inv(s)
    ensures var c := SnapshotWindow(s, start, now, host);
            Sum(Retained(s), family, instant) ==
              Join(Sum(PieceMetrics(c.segments), family, instant),
                   Sum(LeftOut(Retained(s), c.manifest.start, now), family, instant))
  {
    hide Join, Sum, Retained, Inv, Pieces;
    SnapshotExact(s, start, now, host);
    SelectionSplits(Retained(s), Actual(s, start, now), now, family, instant);
  }

  // ----- polling -----

  /** Poll intervals in order: starts never go back and a family's intervals do not overlap. */
  predicate Order(ms: seq<Metric>) {
    forall i, j :: 0 <= i < j < |ms| ==>
      ms[i].start <= ms[j].start && (ms[i].family == ms[j].family ==> ms[i].end <= ms[j].start)
  }

  predicate StartsAscend(ms: seq<Metric>) {
    forall i, j :: 0 <= i < j < |ms| ==> ms[i].start <= ms[j].start
  }

  predicate StartsAmong(ms: seq<Metric>, from: seq<Metric>) {
    forall m :: m in ms ==> exists o :: o in from && o.start == m.start
  }

  predicate EndsInside(g: Seg) {
    forall m :: m in g.metrics ==> g.start <= m.end
  }

  /** What steady polling keeps: each raw aggregate ends in its segment or later, raw aggregates
      are in poll order, and all retained ones are in order of their starts. */
  predicate Steady(s: State, offered: seq<Metric>, clock: nat) {
    s.active.start <= clock && EndsInside(s.active) && (forall g :: g in s.sealed ==> EndsInside(g)) &&
    Order(RawMetrics(s)) && (forall m :: m in RawMetrics(s) ==> m in offered) &&
    StartsAscend(Retained(s)) && StartsAmong(Retained(s), offered)
  }

  predicate Suffix(ms: seq<Metric>, of: seq<Metric>) {
    |ms| <= |of| && ms == of[|of| - |ms|..]
  }

  /** `r` is `s` with older history folded or gone. */
  predicate Thinned(s: State, r: State) {
    r.active == s.active && (forall g :: g in r.sealed ==> g in s.sealed) && Suffix(RawMetrics(r), RawMetrics(s)) &&
    (StartsAscend(Retained(s)) ==> StartsAscend(Retained(r))) && StartsAmong(Retained(r), Retained(s))
  }

  lemma ThinnedSteady(s: State, r: State, offered: seq<Metric>, clock: nat)
    requires Steady(s, offered, clock) && Thinned(s, r)
    ensures Steady(r, offered, clock)
  {
    hide Retained, RawMetrics, StartsAscend, EndsInside;
    var a, b := RawMetrics(r), RawMetrics(s);
    forall i | 0 <= i < |a| ensures a[i] == b[|b| - |a| + i] && a[i] in b {
    }
    forall m | m in Retained(r) ensures exists o :: o in offered && o.start == m.start {
      var q :| q in Retained(s) && q.start == m.start;
      var o :| o in offered && o.start == q.start;
    }
  }

  lemma ThinnedTrans(s: State, t: State, r: State)
    requires Thinned(s, t) && Thinned(t, r)
    ensures Thinned(s, r)
  {
    hide Retained, RawMetrics, StartsAscend;
    var a, b, c := RawMetrics(r), RawMetrics(t), RawMetrics(s);
    assert a == c[|c| - |a|..];
    forall m | m in Retained(r) ensures exists o :: o in Retained(s) && o.start == m.start {
      var q :| q in Retained(t) && q.start == m.start;
      var o :| o in Retained(s) && o.start == q.start;
    }
  }

  lemma ThinnedSelf(s: State)
    ensures Thinned(s, s)
  {
  }

  /** Removing a stretch from the middle keeps the order of starts. */
  lemma Removed(a: seq<Metric>, b: seq<Metric>, c: seq<Metric>)
    ensures StartsAscend(a + b + c) ==> StartsAscend(a + c)
    ensures StartsAmong(a + c, a + b + c)
  {
    var w, r := a + b + c, a + c;
    forall i | 0 <= i < |r| ensures r[i] == w[if i < |a| then i else i + |b|] && r[i] in w {
    }
  }

  lemma SuffixOf(front: seq<Metric>, back: seq<Metric>)
    ensures Suffix(back, front + back)
  {
  }

  lemma DropRawLists(s: State, memory: bool)
    requires |s.sealed| > 0
    ensures var r, ms := DropRaw(s, memory), s.sealed[0].metrics;
            RawMetrics(s) == ms + RawMetrics(r) && RollupMetrics(r) == RollupMetrics(s) &&
            Retained(s) == RollupMetrics(s) + ms + RawMetrics(r)
  {
    var r, ms := DropRaw(s, memory), s.sealed[0].metrics;
    assert RawMetrics(s) == ms + RawMetrics(r);
  }

  lemma DropRawThinned(s: State, memory: bool)
    requires |s.sealed| > 0
    ensures Thinned(s, DropRaw(s, memory))
  {
    DropRawLists(s, memory);
    hide StartsAscend, StartsAmong, Suffix, RawMetrics, RollupMetrics;
    var r, ms := DropRaw(s, memory), s.sealed[0].metrics;
    SuffixOf(ms, RawMetrics(r));
    Removed(RollupMetrics(s), ms, RawMetrics(r));
  }

  lemma DropRollupLists(s: State, memory: bool)
    requires HasRollup(s)
    ensures var r := DropRollup(s, memory);
            RawMetrics(r) == RawMetrics(s) && Suffix(Retained(r), Retained(s))
  {
    var r := DropRollup(s, memory);
    var ms := if |s.rollups| > 0 then s.rollups[0].metrics else s.rollupActive.value.metrics;
    assert RawMetrics(r) == RawMetrics(s);
    assert RollupMetrics(s) == ms + RollupMetrics(r);
    hide RawMetrics, RollupMetrics;
    assert Retained(s) == ms + Retained(r);
  }

  lemma DropRollupThinned(s: State, memory: bool)
    requires HasRollup(s)
    ensures Thinned(s, DropRollup(s, memory))
  {
    DropRollupLists(s, memory);
    SuffixThins(Retained(DropRollup(s, memory)), Retained(s));
    hide StartsAscend, StartsAmong, RawMetrics, RollupMetrics, Retained;
  }

  lemma SuffixThins(ms: seq<Metric>, of: seq<Metric>)
    requires Suffix(ms, of)
    ensures (StartsAscend(of) ==> StartsAscend(ms)) && StartsAmong(ms, of)
  {
    var n := |of| - |ms|;
    forall i | 0 <= i < |ms| ensures ms[i] == of[n + i] && ms[i] in of {
    }
  }

  lemma {:induction false} ExpireSealedThinned(s: State, now: nat)
    ensures Thinned(s, ExpireSealed(s, now))
    decreases |s.sealed|
  {
    hide Thinned;
    if |s.sealed| > 0 && Aged(s.sealed[0].end, now, s.history) {
      DropRawThinned(s, false);
      ExpireSealedThinned(DropRaw(s, false), now);
      ThinnedTrans(s, DropRaw(s, false), ExpireSealed(s, now));
    } else {
      ThinnedSelf(s);
    }
  }

  lemma {:induction false} ExpireRollupsThinned(s: State, now: nat)
    ensures Thinned(s, ExpireRollups(s, now))
    decreases |s.rollups|
  {
    hide Thinned;
    if |s.rollups| > 0 && Aged(s.rollups[0].end, now, s.history) {
      DropRollupThinned(s, false);
      ExpireRollupsThinned(DropRollup(s, false), now);
      ThinnedTrans(s, DropRollup(s, false), ExpireRollups(s, now));
    } else {
      ThinnedSelf(s);
    }
  }

  lemma {:induction false} EvictThinned(s: State, cost: nat)
    ensures Thinned(s, EvictUntilFits(s, cost))
    decreases RollupCount(s)
  {
    hide Thinned;
    if s.bytes + cost > s.max && HasRollup(s) {
      DropRollupThinned(s, true);
      EvictThinned(DropRollup(s, true), cost);
      ThinnedTrans(s, DropRollup(s, true), EvictUntilFits(s, cost));
    } else {
      ThinnedSelf(s);
    }
  }

  // ----- folding keeps the order -----

  lemma {:induction false} AddAllStarts(a: Seg, ms: seq<Metric>, before: seq<Metric>, rest: seq<Metric>)
    requires StartsAscend(before + a.metrics + ms + rest)
    ensures StartsAscend(before + AddAll(a, ms).metrics + rest)
    decreases |ms|
  {
    if |ms| == 0 {
      assert before + a.metrics + ms + rest == before + a.metrics + rest;
    } else {
      hide StartsAscend;
      var b := AddToRollup(a, ms[0]);
      assert before + a.metrics + ms + rest == before + a.metrics + [ms[0]] + (ms[1..] + rest);
      AddOneStarts(a, ms[0], before, ms[1..] + rest);
      assert before + b.metrics + ms[1..] + rest == before + b.metrics + (ms[1..] + rest);
      AddAllStarts(b, ms[1..], before, rest);
    }
  }

  /** A merge keeps the entry's start; an append comes last. */
  lemma AddOneStarts(a: Seg, m: Metric, before: seq<Metric>, rest: seq<Metric>)
    requires StartsAscend(before + a.metrics + [m] + rest)
    ensures StartsAscend(before + AddToRollup(a, m).metrics + rest)
  {
    var i, b := MergeIndex(a.metrics, m), AddToRollup(a, m).metrics;
    if i < |a.metrics| {
      Removed(before + a.metrics, [m], rest);
      MergeStarts(a.metrics, m, i);
      SameAround(before, a.metrics, b, rest);
    } else {
      assert before + b + rest == before + a.metrics + [m] + rest;
    }
  }

  lemma MergeStarts(ms: seq<Metric>, m: Metric, i: nat)
    requires i < |ms|
    ensures forall k :: 0 <= k < |ms| ==> ms[i := Merge(ms[i], m)][k].start == ms[k].start
  {
  }

  lemma SameAround(a: seq<Metric>, x: seq<Metric>, y: seq<Metric>, c: seq<Metric>)
    requires |x| == |y| && forall k :: 0 <= k < |x| ==> y[k].start == x[k].start
    ensures StartsAscend(a + x + c) ==> StartsAscend(a + y + c)
  {
    SameStarts(a + x + c, a + y + c);
  }

  lemma SameStarts(x: seq<Metric>, y: seq<Metric>)
    requires |x| == |y| && forall k :: 0 <= k < |x| ==> y[k].start == x[k].start
    ensures StartsAscend(x) ==> StartsAscend(y)
    ensures StartsAmong(y, x)
  {
  }

  lemma {:induction false} AddAllAmong(a: Seg, ms: seq<Metric>)
    ensures StartsAmong(AddAll(a, ms).metrics, a.metrics + ms)
    decreases |ms|
  {
    if |ms| == 0 {
      assert a.metrics + ms == a.metrics;
    } else {
      var b, i := AddToRollup(a, ms[0]), MergeIndex(a.metrics, ms[0]);
      if i < |a.metrics| {
        SameStarts(a.metrics, b.metrics);
      }
      AddAllAmong(b, ms[1..]);
      hide AddToRollup, AddAll;
      AmongOne(a.metrics, ms, b.metrics, AddAll(b, ms[1..]).metrics);
    }
  }

  lemma AmongOne(xs: seq<Metric>, ms: seq<Metric>, ys: seq<Metric>, zs: seq<Metric>)
    requires |ms| > 0 && (ys == xs + [ms[0]] || StartsAmong(ys, xs)) && StartsAmong(zs, ys + ms[1..])
    ensures StartsAmong(zs, xs + ms)
  {
    forall m | m in zs ensures exists o :: o in xs + ms && o.start == m.start {
      var q :| q in ys + ms[1..] && q.start == m.start;
      if q in ys && StartsAmong(ys, xs) {
        var o :| o in xs && o.start == q.start;
        assert o in xs + ms;
      } else {
        assert q in xs + ms;
      }
    }
  }

  lemma AmongAround(a: seq<Metric>, b: seq<Metric>, b': seq<Metric>, c: seq<Metric>)
    requires StartsAmong(b', b)
    ensures StartsAmong(a + b' + c, a + b + c)
  {
    forall m | m in a + b' + c ensures exists o :: o in a + b + c && o.start == m.start {
      if m in b' {
        var o :| o in b && o.start == m.start;
        assert o in a + b + c;
      } else {
        assert m in a + b + c;
      }
    }
  }

  /** A fold replaces the rollup's entries and the segment's aggregates by the rollup they make. */
  lemma CompactLists(s: State)
    requires |s.sealed| > 0 && |s.sealed[0].metrics| > 0
    ensures var g, t, r := s.sealed[0], DropRaw(s, true), CompactOldest(s);
            var u := OpenRollup(t, g);
            var a, before, rest := u.rollupActive.value, MetricsOf(u.rollups), RawMetrics(t);
            Retained(s) == before + a.metrics + g.metrics + rest &&
            Retained(r) == before + AddAll(a, g.metrics).metrics + rest && RawMetrics(r) == rest
  {
    hide Minute, AddAll;
    var g, t := s.sealed[0], DropRaw(s, true);
    var u := OpenRollup(t, g);
    DropRawLists(s, true);
    if s.rollupActive.Some? {
      MetricsOfAppend(s.rollups, s.rollupActive.value);
    }
    assert RollupMetrics(s) == MetricsOf(u.rollups) + u.rollupActive.value.metrics;
  }

  lemma FoldThins(a: Seg, ms: seq<Metric>, before: seq<Metric>, rest: seq<Metric>)
    ensures var x, y := before + a.metrics + ms + rest, before + AddAll(a, ms).metrics + rest;
            (StartsAscend(x) ==> StartsAscend(y)) && StartsAmong(y, x) && Suffix(rest, ms + rest)
  {
    hide StartsAscend, StartsAmong, Suffix;
    if StartsAscend(before + a.metrics + ms + rest) {
      AddAllStarts(a, ms, before, rest);
    }
    AddAllAmong(a, ms);
    AmongAround(before, a.metrics + ms, AddAll(a, ms).metrics, rest);
    assert before + (a.metrics + ms) + rest == before + a.metrics + ms + rest;
    SuffixOf(ms, rest);
  }

  lemma CompactThinned(s: State)
    requires |s.sealed| > 0
    ensures Thinned(s, CompactOldest(s))
  {
    if |s.sealed[0].metrics| == 0 {
      DropRawThinned(s, true);
    } else {
      var g, t := s.sealed[0], DropRaw(s, true);
      var u := OpenRollup(t, g);
      DropRawLists(s, true);
      CompactLists(s);
      FoldThins(u.rollupActive.value, g.metrics, MetricsOf(u.rollups), RawMetrics(t));
      hide *;
      Refold(s, CompactOldest(s));
    }
  }

  lemma Refold(s: State, r: State)
    requires r.active == s.active && |s.sealed| > 0 && r.sealed == s.sealed[1..] && Suffix(RawMetrics(r), RawMetrics(s))
    requires StartsAscend(Retained(s)) ==> StartsAscend(Retained(r))
    requires StartsAmong(Retained(r), Retained(s))
    ensures Thinned(s, r)
  {
    hide StartsAscend, StartsAmong, Suffix, RawMetrics, Retained;
  }

  lemma {:induction false} FoldThinned(s: State, cost: nat)
    ensures Thinned(s, FoldUntilFits(s, cost))
    decreases |s.sealed|
  {
    hide Thinned;
    if s.bytes + cost > s.max && |s.sealed| > 0 {
      CompactThinned(s);
      FoldThinned(CompactOldest(s), cost);
      ThinnedTrans(s, CompactOldest(s), FoldUntilFits(s, cost));
    } else {
      ThinnedSelf(s);
    }
  }

  lemma ExpireThinned(s: State, now: nat)
    ensures Thinned(s, Expire(s, now))
  {
    hide Thinned, ExpireSealed, ExpireRollups;
    var a := ExpireSealed(s, now);
    var b := ExpireRollups(a, now);
    ExpireSealedThinned(s, now);
    ExpireRollupsThinned(a, now);
    ThinnedTrans(s, a, b);
    if b.rollupActive.Some? && Aged(b.rollupActive.value.end, now, b.history) {
      DropRollupThinned(b, false);
      ThinnedTrans(s, b, DropRollup(b, false));
    }
  }

  // ----- steady runs -----

  lemma SealSteady(s: State, offered: seq<Metric>, clock: nat, now: nat)
    requires Steady(s, offered, clock) && clock <= now
    ensures Steady(Seal(s, now), offered, now)
  {
    var g := s.active.(end := s.active.start + s.interval);
    MetricsOfAppend(s.sealed, g);
    assert RawMetrics(Seal(s, now)) == RawMetrics(s);
    assert Retained(Seal(s, now)) == Retained(s);
    hide Order, StartsAscend, StartsAmong, RawMetrics, Retained;
  }

  lemma ClockSteady(s: State, offered: seq<Metric>, clock: nat)
    requires Steady(s, offered, clock)
    ensures s.active.start <= clock
  {
  }

  lemma AdvanceSteady(s: State, offered: seq<Metric>, clock: nat, now: nat)
    requires Steady(s, offered, clock) && clock <= now
    ensures Steady(Advance(s, now), offered, now)
  {
    hide Steady, Thinned, Seal, Expire, FoldUntilFits, EvictUntilFits;
    ClockSteady(s, offered, clock);
    SealSteady(s, offered, clock, now);
    var a := Seal(s, now);
    var b := Expire(a, now);
    ExpireThinned(a, now);
    ThinnedSteady(a, b, offered, now);
    FoldThinned(b, 0);
    var c := FoldUntilFits(b, 0);
    ThinnedSteady(b, c, offered, now);
    EvictThinned(c, 0);
    ThinnedSteady(c, EvictUntilFits(c, 0), offered, now);
  }

  lemma SameListsSteady(s: State, r: State, offered: seq<Metric>, clock: nat)
    requires Steady(s, offered, clock) && RawMetrics(r) == RawMetrics(s) && Retained(r) == Retained(s)
    requires r.sealed == s.sealed && r.active.metrics == s.active.metrics && r.active.start == s.active.start
    ensures Steady(r, offered, clock)
  {
    hide Order, StartsAscend, StartsAmong, RawMetrics, Retained;
  }

  lemma OfferedMore(s: State, offered: seq<Metric>, m: Metric, clock: nat)
    requires Steady(s, offered, clock)
    ensures Steady(s, offered + [m], clock)
  {
    hide Order, StartsAscend, RawMetrics, Retained;
    forall q | q in Retained(s) ensures exists o :: o in offered + [m] && o.start == q.start {
      var o :| o in offered && o.start == q.start;
      assert o in offered + [m];
    }
  }

  lemma AddMetricSteady(s: State, m: Metric, offered: seq<Metric>, clock: nat)
    requires Buffered(s) && Steady(s, offered, clock) && Order(offered + [m]) && s.active.start <= m.end
    ensures Steady(AddMetric(s, m), offered + [m], clock)
  {
    var r := AddMetric(s, m);
    assert RawMetrics(r) == RawMetrics(s) + [m] && Retained(r) == Retained(s) + [m];
    assert r.active.metrics == s.active.metrics + [m];
    hide RawMetrics, Retained;
    AppendOrder(RawMetrics(s), offered, m);
    AppendStarts(Retained(s), offered, m);
  }

  lemma AppendOrder(ms: seq<Metric>, offered: seq<Metric>, m: Metric)
    requires Order(ms) && Order(offered + [m]) && forall q :: q in ms ==> q in offered
    ensures Order(ms + [m]) && forall q :: q in ms + [m] ==> q in offered + [m]
  {
    forall i | 0 <= i < |ms| ensures ms[i].start <= m.start && (ms[i].family == m.family ==> ms[i].end <= m.start) {
      assert ms[i] in ms;
      var k :| 0 <= k < |offered| && offered[k] == ms[i];
      assert (offered + [m])[k] == ms[i] && (offered + [m])[|offered|] == m;
    }
  }

  lemma AppendStarts(ms: seq<Metric>, offered: seq<Metric>, m: Metric)
    requires StartsAscend(ms) && StartsAmong(ms, offered) && Order(offered + [m])
    ensures StartsAscend(ms + [m]) && StartsAmong(ms + [m], offered + [m])
  {
    forall q | q in ms ensures q.start <= m.start && exists o :: o in offered + [m] && o.start == q.start {
      var o :| o in offered && o.start == q.start;
      var k :| 0 <= k < |offered| && offered[k] == o;
      assert (offered + [m])[k] == o && (offered + [m])[|offered|] == m;
    }
    forall i, j | 0 <= i < j < |ms + [m]| ensures (ms + [m])[i].start <= (ms + [m])[j].start {
      assert ms[i] in ms;
    }
    assert m in offered + [m];
  }

  lemma StepSteady(s: State, op: Op, offered: seq<Metric>, clock: nat)
    requires Buffered(s) && Steady(s, offered, clock) && clock <= op.now
    requires op.Aggregate? ==> op.metric.end == op.now && Order(offered + [op.metric])
    ensures Steady(Step(s, op), if op.Aggregate? then offered + [op.metric] else offered, op.now)
  {
    hide Steady, Thinned;
    AdvanceSteady(s, offered, clock, op.now);
    AdvanceKeepsBuffers(s, op.now);
    var t := Advance(s, op.now);
    match op
    case Tick(_) =>
    case Detail(e, now) =>
      var cost := EventCost(t.active, e);
      FoldThinned(t, cost);
      FoldFrame(t, cost);
      var u := Room(t, cost, false);
      ThinnedSteady(t, u, offered, now);
      SameListsSteady(t, Drop(t), offered, now);
      SameListsSteady(u, Drop(u), offered, now);
      SameListsSteady(u, AddEvent(u, e), offered, now);
    case Aggregate(m, now) =>
      var cost := MetricCost(t.active, m);
      OfferSteady(t, m, cost, offered, now);
  }

  lemma OfferSteady(t: State, m: Metric, cost: nat, offered: seq<Metric>, now: nat)
    requires Buffered(t) && Steady(t, offered, now) && m.end == now && Order(offered + [m])
    ensures var u := Room(t, cost, true);
            Buffered(u) && Steady(Drop(u), offered + [m], now) && Steady(AddMetric(u, m), offered + [m], now)
  {
    hide Steady, Thinned;
    var a := FoldUntilFits(t, cost);
    FoldThinned(t, cost);
    ThinnedSteady(t, a, offered, now);
    EvictThinned(a, cost);
    var u := Room(t, cost, true);
    ThinnedSteady(a, u, offered, now);
    FoldFrame(t, cost);
    EvictFrame(a, cost);
    ClockSteady(u, offered, now);
    AddMetricSteady(u, m, offered, now);
    OfferedMore(u, offered, m, now);
    SameListsSteady(u, Drop(u), offered + [m], now);
  }

  /** The clock never goes back and every metric is offered at the end of its interval. */
  predicate PollsSteadily(ops: seq<Op>, clock: nat)
    decreases |ops|
  {
    |ops| == 0 ||
    (clock <= ops[0].now && (ops[0].Aggregate? ==> ops[0].metric.end == ops[0].now) &&
     PollsSteadily(ops[1..], ops[0].now))
  }

  lemma OrderPrefix(a: seq<Metric>, b: seq<Metric>)
    requires Order(a + b)
    ensures Order(a)
  {
    forall i, j | 0 <= i < j < |a|
      ensures a[i].start <= a[j].start && (a[i].family == a[j].family ==> a[i].end <= a[j].start)
    {
      assert (a + b)[i] == a[i] && (a + b)[j] == a[j];
    }
  }

  lemma {:induction false} RunSteady(s: State, ops: seq<Op>, offered: seq<Metric>, clock: nat)
    returns (last: nat)
    requires Buffered(s) && Steady(s, offered, clock) && PollsSteadily(ops, clock) && Order(offered + Offered(ops))
    ensures Steady(Run(s, ops), offered + Offered(ops), last)
    ensures last == if |ops| == 0 then clock else ops[|ops| - 1].now
    decreases |ops|
  {
    hide Steady, Order;
    if |ops| == 0 {
      assert offered + [] == offered;
      last := clock;
    } else {
      var next := if ops[0].Aggregate? then offered + [ops[0].metric] else offered;
      assert next + Offered(ops[1..]) == offered + Offered(ops);
      OrderPrefix(next, Offered(ops[1..]));
      StepSteady(s, ops[0], offered, clock);
      StepKeepsBuffers(s, ops[0]);
      last := RunSteady(Step(s, ops[0]), ops[1..], next, ops[0].now);
    }
  }

  // ----- what steady polling leaves out -----

  lemma {:induction false} LeftOutMembers(ms: seq<Metric>, lo: nat, hi: nat)
    ensures forall m :: m in LeftOut(ms, lo, hi) <==> m in ms && !(m.start >= lo && m.end <= hi)
  {
    if |ms| > 0 {
      assert ms == ms[..|ms| - 1] + [ms[|ms| - 1]];
      LeftOutMembers(ms[..|ms| - 1], lo, hi);
    }
  }

  lemma OrderAppend(ms: seq<Metric>, m: Metric)
    requires Order(ms) && forall q :: q in ms ==> q.start <= m.start && (q.family == m.family ==> q.end <= m.start)
    ensures Order(ms + [m])
  {
    forall i | 0 <= i < |ms| ensures ms[i] in ms {
    }
  }

  lemma {:induction false} LeftOutOrder(ms: seq<Metric>, lo: nat, hi: nat)
    requires Order(ms)
    ensures Order(LeftOut(ms, lo, hi))
  {
    if |ms| > 0 {
      var front, m := ms[..|ms| - 1], ms[|ms| - 1];
      assert ms == front + [m];
      OrderPrefix(front, [m]);
      LeftOutOrder(front, lo, hi);
      LeftOutMembers(front, lo, hi);
      forall q | q in front ensures q.start <= m.start && (q.family == m.family ==> q.end <= m.start) {
        var k :| 0 <= k < |front| && front[k] == q;
        assert ms[k] == q;
      }
      hide Order;
      OrderAppend(LeftOut(front, lo, hi), m);
      assert LeftOut(front, lo, hi) + [] == LeftOut(front, lo, hi);
    }
  }

  lemma {:induction false} InSegments(gs: seq<Seg>, m: Metric)
    requires m in MetricsOf(gs)
    ensures exists g :: g in gs && m in g.metrics
  {
    if m in gs[0].metrics {
      assert gs[0] in gs;
    } else {
      InSegments(gs[1..], m);
      var g :| g in gs[1..] && m in g.metrics;
      assert g in gs;
    }
  }

  /** Raw aggregates reach into the retained detail. */
  lemma RawEnds(s: State, offered: seq<Metric>, clock: nat)
    requires Inv(s) && Steady(s, offered, clock)
    ensures forall m :: m in RawMetrics(s) ==> m.end >= DetailFrom(s)
  {
    forall m | m in RawMetrics(s) ensures m.end >= DetailFrom(s) {
      if m !in s.active.metrics {
        InSegments(s.sealed, m);
        var g :| g in s.sealed && m in g.metrics;
        SealedAfter(s, g);
      } else {
        OldestFirst(s);
      }
    }
  }

  lemma SealedAfter(s: State, g: Seg)
    requires Inv(s) && g in s.sealed
    ensures DetailFrom(s) <= g.start
  {
    var k :| 0 <= k < |s.sealed| && s.sealed[k] == g;
    assert RawOk(s.sealed[0], s.sealed[0].end);
  }

  lemma OldestFirst(s: State)
    requires Inv(s)
    ensures DetailFrom(s) <= s.active.start
  {
    if |s.sealed| > 0 {
      assert s.sealed[0] in s.sealed;
    }
  }

  /** With rollups, the oldest entry starts where the retained history does. */
  lemma RollupsReach(s: State, offered: seq<Metric>, clock: nat, now: nat)
    requires Inv(s) && Steady(s, offered, clock) && HasRollup(s)
    ensures forall m :: m in Retained(s) ==> m.start >= Boundary(s, 0, now)
  {
    FirstRetained(s);
    SteadyStarts(s, offered, clock);
    BoundaryFloor(s, now);
    hide *;
    AllFromFirst(Retained(s), Boundary(s, 0, now));
  }

  lemma BoundaryFloor(s: State, now: nat)
    ensures Boundary(s, 0, now) <= RetainedFrom(s)
  {
  }

  lemma AllFromFirst(ms: seq<Metric>, lo: nat)
    requires StartsAscend(ms) && |ms| > 0 && lo <= ms[0].start
    ensures forall m :: m in ms ==> m.start >= lo
  {
    forall m | m in ms ensures m.start >= lo {
      var k :| 0 <= k < |ms| && ms[k] == m;
      assert ms[0].start <= ms[k].start;
    }
  }

  lemma SteadyStarts(s: State, offered: seq<Metric>, clock: nat)
    requires Steady(s, offered, clock)
    ensures StartsAscend(Retained(s))
  {
  }

  lemma FirstRetained(s: State)
    requires Inv(s) && HasRollup(s)
    ensures |Retained(s)| > 0 && RetainedFrom(s) <= Retained(s)[0].start
  {
    var g := Rollups(s)[0];
    if |s.rollups| > 0 {
      assert s.rollups[0] in s.rollups;
      assert RollupMetrics(s)[..|g.metrics|] == g.metrics;
    }
    assert |g.metrics| > 0 && g.metrics[0] in g.metrics;
    assert RollupMetrics(s)[0] == g.metrics[0];
  }

  /** What a capture from zero leaves out of a steadily polled history: nothing once there are
      rollups, otherwise at most one aggregate per family, which straddles the oldest segment's
      start. */
  lemma StraddlersOnly(s: State, offered: seq<Metric>, clock: nat, now: nat)
    requires Inv(s) && Steady(s, offered, clock) && forall m :: m in Retained(s) ==> m.end <= now
    ensures var left := LeftOut(Retained(s), Actual(s, 0, now), now);
            (HasRollup(s) ==> left == []) &&
            (forall i, j :: 0 <= i < j < |left| ==> left[i].family != left[j].family) &&
            forall m :: m in left ==> m in RawMetrics(s) && m.start < DetailFrom(s) <= m.end
  {
    var a := Actual(s, 0, now);
    LeftOutMembers(Retained(s), a, now);
    if HasRollup(s) {
      RollupsReach(s, offered, clock, now);
      forall m | m in Retained(s) ensures m.start >= a {
        ReachExact(s, 0, now, m);
      }
      LeftOutNone(Retained(s), a, now);
    } else {
      RawStraddlers(s, offered, clock, now);
    }
  }

  lemma {:induction false} LeftOutNone(ms: seq<Metric>, lo: nat, hi: nat)
    requires forall m :: m in ms ==> m.start >= lo && m.end <= hi
    ensures LeftOut(ms, lo, hi) == []
  {
    if |ms| > 0 {
      LeftOutNone(ms[..|ms| - 1], lo, hi);
    }
  }

  lemma RawOnly(s: State, now: nat)
    requires !HasRollup(s)
    ensures Retained(s) == RawMetrics(s) && Actual(s, 0, now) <= DetailFrom(s)
  {
  }

  lemma SteadyOrder(s: State, offered: seq<Metric>, clock: nat)
    requires Steady(s, offered, clock)
    ensures Order(RawMetrics(s))
  {
  }

  lemma RawStraddlers(s: State, offered: seq<Metric>, clock: nat, now: nat)
    requires Inv(s) && Steady(s, offered, clock) && !HasRollup(s) && forall m :: m in Retained(s) ==> m.end <= now
    ensures var left := LeftOut(Retained(s), Actual(s, 0, now), now);
            (forall i, j :: 0 <= i < j < |left| ==> left[i].family != left[j].family) &&
            forall m :: m in left ==> m in RawMetrics(s) && m.start < DetailFrom(s) <= m.end
  {
    hide Inv, Retained, RawMetrics, LeftOut, Actual, DetailFrom, Steady, HasRollup;
    var a := Actual(s, 0, now);
    RawOnly(s, now);
    RawEnds(s, offered, clock);
    SteadyOrder(s, offered, clock);
    LeftOutMembers(Retained(s), a, now);
    LeftOutOrder(Retained(s), a, now);
    var left := LeftOut(Retained(s), a, now);
    forall i, j | 0 <= i < j < |left| ensures left[i].family != left[j].family {
      assert left[i] in left && left[j] in left;
    }
  }

  lemma NewSteady(history: nat, max: nat, interval: nat, started: nat)
    ensures Steady(New(history, max, interval, started), [], started)
  {
    var s := New(history, max, interval, started);
    assert RawMetrics(s) == [] && Retained(s) == [];
  }

  /** Over any steadily polled run: the totals of a capture of everything fall short of the totals
      retained by at most one straddling aggregate per family, and by nothing once the recorder
      has folded any aggregate it still holds. */
  lemma PolledCaptureLeavesStraddlers(history: nat, max: nat, interval: nat, started: nat, ops: seq<Op>, now: nat,
                                      host: Host, family: string, instant: nat)
    requires SEGMENT_COST <= max && forall op :: op in ops ==> Legal(op)
    requires PollsSteadily(ops, started) && Order(Offered(ops))
    requires forall m :: m in Retained(Run(New(history, max, interval, started), ops)) ==> m.end <= now
    ensures var s := Run(New(history, max, interval, started), ops);
            var c := SnapshotWindow(s, 0, now, host);
            var left := LeftOut(Retained(s), c.manifest.start, now);
            Sum(Retained(s), family, instant) ==
              Join(Sum(PieceMetrics(c.segments), family, instant), Sum(left, family, instant)) &&
            (HasRollup(s) ==> left == []) &&
            (forall i, j :: 0 <= i < j < |left| ==> left[i].family != left[j].family) &&
            forall m :: m in left ==> m in RawMetrics(s) && m.start < DetailFrom(s) <= m.end
  {
    hide Inv, Steady, Run, Retained, Join, Sum, RawMetrics, HasRollup;
    var n := New(history, max, interval, started);
    NewHolds(history, max, interval, started);
    NewSteady(history, max, interval, started);
    RunHolds(n, ops);
    assert [] + Offered(ops) == Offered(ops);
    var last := RunSteady(n, ops, [], started);
    StraddlersOnly(Run(n, ops), Offered(ops), last, now);
    CaptureSplitsTotals(Run(n, ops), 0, now, host, family, instant);
  }

  /** A fold brings a straddler back: once it has made a rollup, a capture of everything holds the
      totals of everything that was retained before it. */
  lemma FoldRestoresStraddlers(s: State, offered: seq<Metric>, clock: nat, now: nat, host: Host, family: string,
                               instant: nat)
    requires Inv(s) && Steady(s, offered, clock) && |s.sealed| > 0 && |s.sealed[0].metrics| > 0
    requires forall m :: m in Retained(s) ==> m.end <= now
    ensures Sum(PieceMetrics(SnapshotWindow(CompactOldest(s), 0, now, host).segments), family, instant) ==
              Sum(Retained(s), family, instant)
  {
    hide Inv, Steady, Retained, Join, Sum, Pieces, Thinned;
    var r := CompactOldest(s);
    CompactHolds(s);
    CompactThinned(s);
    ThinnedSteady(s, r, offered, clock);
    CompactEnds(s, now);
    StraddlersOnly(r, offered, clock, now);
    CaptureSplitsTotals(r, 0, now, host, family, instant);
    CompactKeeps(s, family, instant);
    var all := Sum(PieceMetrics(SnapshotWindow(r, 0, now, host).segments), family, instant);
    assert Sum([], family, instant) == Nothing() by { SumNothing(family, instant); }
    JoinLaws(all, Nothing(), Nothing());
  }

  lemma SumNothing(family: string, instant: nat)
    ensures Sum([], family, instant) == Nothing()
  {
  }

  lemma {:induction false} AddAllEnds(a: Seg, ms: seq<Metric>, limit: nat)
    requires (forall m :: m in a.metrics ==> m.end <= limit) && forall m :: m in ms ==> m.end <= limit
    ensures forall m :: m in AddAll(a, ms).metrics ==> m.end <= limit
    decreases |ms|
  {
    if |ms| > 0 {
      assert ms[0] in ms;
      AddAllEnds(AddToRollup(a, ms[0]), ms[1..], limit);
    }
  }

  lemma CompactEnds(s: State, limit: nat)
    requires |s.sealed| > 0 && |s.sealed[0].metrics| > 0 && forall m :: m in Retained(s) ==> m.end <= limit
    ensures HasRollup(CompactOldest(s)) && forall m :: m in Retained(CompactOldest(s)) ==> m.end <= limit
  {
    hide Retained, Minute, AddAll, RawMetrics, MetricsOf;
    CompactLists(s);
    var u := OpenRollup(DropRaw(s, true), s.sealed[0]);
    AddAllEnds(u.rollupActive.value, s.sealed[0].metrics, limit);
  }

  // ----- a straddler, concretely -----

  function First(): Metric {
    Metric(BLOCK_IO, 0, 5, Zero())
  }

  function Second(): Metric {
    Metric(BLOCK_IO, 5, 12, Zero())
  }

  /** Two contiguous polls, and time until the first has expired and the second is sealed. */
  function StraddlingRun(): seq<Op> {
    [Aggregate(First(), 5), Aggregate(Second(), 12), Tick(20), Tick(22)]
  }

  function Holding(start: nat, end: nat, m: Metric): Seg {
    Seg(start, end, [], 0, [m], 4, SEGMENT_COST + 904, Min(start, m.start), Max(start, m.end))
  }

  function At(bytes: int, sealed: seq<Seg>, active: Seg, ledger: Ledger): State {
    State(0, 10, 10, 100000, bytes, [], None, 0, sealed, active, 0, 0, 0, ledger)
  }

  function AtFive(): State {
    At(1416, [], Holding(0, 5, First()), Ledger([First()], [], []))
  }

  function AtTwelve(): State {
    At(2832, [Holding(0, 10, First())], Holding(12, 12, Second()), Ledger([First(), Second()], [], []))
  }

  function AtTwenty(): State {
    At(1416, [], Holding(12, 20, Second()), Ledger([First(), Second()], [First()], []))
  }

  function AtTwentyTwo(): State {
    At(1928, [Holding(12, 22, Second())], Fresh(22), Ledger([First(), Second()], [First()], []))
  }

  lemma StepFive()
    ensures Step(New(10, 100000, 10, 0), Aggregate(First(), 5)) == AtFive()
  {
    var s := New(10, 100000, 10, 0);
    assert Advance(s, 5) == s.(active := s.active.(end := 5));
  }

  lemma StepTwelve()
    ensures Step(AtFive(), Aggregate(Second(), 12)) == AtTwelve()
  {
    var a := At(1928, [Holding(0, 10, First())], Fresh(12), Ledger([First()], [], []));
    assert Seal(AtFive(), 12) == a;
    assert Expire(a, 12) == a;
    assert Advance(AtFive(), 12) == a;
  }

  lemma StepTwenty()
    ensures Step(AtTwelve(), Tick(20)) == AtTwenty()
  {
    var a := AtTwelve().(active := Holding(12, 20, Second()));
    assert Seal(AtTwelve(), 20) == a;
    assert DropRaw(a, false) == AtTwenty();
    assert ExpireSealed(a, 20) == AtTwenty();
  }

  lemma StepTwentyTwo()
    ensures Step(AtTwenty(), Tick(22)) == AtTwentyTwo()
  {
    assert Seal(AtTwenty(), 22) == AtTwentyTwo();
    assert Expire(AtTwentyTwo(), 22) == AtTwentyTwo();
  }

  /** Contiguous polling alone does not make a capture complete: here the one retained aggregate
      starts before its segment, no capture of any window holds it, and folding brings it in. */
  lemma StraddlerIsLeftOut(host: Host)
    ensures var s := Run(New(10, 100000, 10, 0), StraddlingRun());
            Inv(s) && PollsSteadily(StraddlingRun(), 0) && Order(Offered(StraddlingRun())) &&
            Retained(s) == [Second()] && |s.sealed| > 0 &&
            (forall start: nat, now: nat :: start <= now ==>
               PieceMetrics(SnapshotWindow(s, start, now, host).segments) == []) &&
            PieceMetrics(SnapshotWindow(CompactOldest(s), 0, 22, host).segments) == [Second()]
  {
    hide Inv, Retained, AtTwentyTwo, CompactOldest, Run, StraddlingRun, Actual, Pieces, PollsSteadily, Order, First,
      Second;
    StraddlingReaches();
    StraddlingPolls();
    SealedStraddler();
    FoldedStraddler();
    var s := AtTwentyTwo();
    forall start: nat, now: nat | start <= now
      ensures PieceMetrics(SnapshotWindow(s, start, now, host).segments) == []
    {
      SnapshotExact(s, start, now, host);
      StraddlerMissed(start, now);
    }
    CompactHolds(s);
    SnapshotExact(CompactOldest(s), 0, 22, host);
    SelectOne(5, 22);
  }

  lemma StraddlerMissed(start: nat, now: nat)
    requires start <= now
    ensures SelectMetrics([Second()], Actual(AtTwentyTwo(), start, now), now) == []
  {
    assert RollupMetrics(AtTwentyTwo()) == [];
    SelectOne(Actual(AtTwentyTwo(), start, now), now);
  }

  lemma SelectOne(lo: nat, hi: nat)
    ensures SelectMetrics([Second()], lo, hi) == if 5 >= lo && 12 <= hi then [Second()] else []
  {
    assert [Second()][..0] == [];
  }

  lemma SealedStraddler()
    ensures Retained(AtTwentyTwo()) == [Second()] && |AtTwentyTwo().sealed| > 0
  {
    assert RawMetrics(AtTwentyTwo()) == [Second()];
  }

  lemma FoldedStraddler()
    ensures var r := CompactOldest(AtTwentyTwo());
            Retained(r) == [Second()] && Actual(r, 0, 22) == 5
  {
  }

  lemma StraddlingReaches()
    ensures var s := Run(New(10, 100000, 10, 0), StraddlingRun()); s == AtTwentyTwo() && Inv(s)
  {
    var a, b, c, d := Aggregate(First(), 5), Aggregate(Second(), 12), Tick(20), Tick(22);
    assert StraddlingRun() == [a] + ([b] + ([c] + [d]));
    NewHolds(10, 100000, 10, 0);
    assert forall op :: op in StraddlingRun() ==> Legal(op);
    hide Step, AtFive, AtTwelve, AtTwenty, AtTwentyTwo, New, Inv, Run, StraddlingRun, First, Second;
    RunHolds(New(10, 100000, 10, 0), StraddlingRun());
    AllBuffered();
    StepFive();
    StepTwelve();
    StepTwenty();
    StepTwentyTwo();
    RunCons(New(10, 100000, 10, 0), a, [b] + ([c] + [d]));
    RunCons(AtFive(), b, [c] + [d]);
    RunCons(AtTwelve(), c, [d]);
    RunOne(AtTwenty(), d);
  }

  lemma AllBuffered()
    ensures Buffered(New(10, 100000, 10, 0)) && Buffered(AtFive()) && Buffered(AtTwelve()) && Buffered(AtTwenty())
  {
  }

  lemma StraddlingPolls()
    ensures PollsSteadily(StraddlingRun(), 0) && Order(Offered(StraddlingRun()))
  {
    var ops := StraddlingRun();
    assert ops[1..] == [Aggregate(Second(), 12), Tick(20), Tick(22)];
    assert ops[1..][1..] == [Tick(20), Tick(22)];
    assert ops[1..][1..][1..] == [Tick(22)];
    assert ops[1..][1..][1..][1..] == [];
    assert Offered(ops) == [First(), Second()];
  }
}
