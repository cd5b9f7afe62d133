/** Where rollups are cut: a rollup gathers segments that started in one minute, and the next one
    begins with the first segment of another. */
module RollupMinutes {
  import opened Telemetry
  import opened RecorderSpec

  /** For each rollup, oldest first, the starts of the segments folded into it. */
  type Origins = seq<seq<nat>>

  predicate OneMinute(a: nat, b: nat) {
    a / 60_000_000_000 == b / 60_000_000_000
  }

  /** Each rollup has an origin, and only segments of its minute; the next rollup is of another. */
  predicate Cut(h: Origins) {
    (forall i :: 0 <= i < |h| ==> |h[i]| > 0 && forall x :: x in h[i] ==> OneMinute(x, h[i][0])) &&
    forall i :: 0 < i < |h| ==> !OneMinute(h[i - 1][0], h[i][0])
  }

  /** The history knows the origins of all its rollups, and the minute of the open one. */
  predicate Knows(s: State, h: Origins) {
    |h| == RollupCount(s) && Cut(h) &&
    (s.rollupActive.Some? ==> s.bucket == h[|h| - 1][0] / 60_000_000_000)
  }

  /** What a fold adds: the segment goes to the rollup that was open if that one still is. */
  function FoldOrigins(s: State, h: Origins): Origins
    requires |s.sealed| > 0
  {
    var g, r := s.sealed[0], CompactOldest(s);
    if |g.metrics| == 0 then h
    else if s.rollupActive.Some? && RollupCount(r) == RollupCount(s) && |h| > 0
    then h[..|h| - 1] + [h[|h| - 1] + [g.start]]
    else h + [[g.start]]
  }

  lemma GathersMinute(h: Origins, x: nat)
    requires Cut(h) && |h| > 0 && OneMinute(x, h[|h| - 1][0])
    ensures Cut(h[..|h| - 1] + [h[|h| - 1] + [x]])
  {
    var r, n := h[..|h| - 1] + [h[|h| - 1] + [x]], |h| - 1;
    assert r[n][0] == h[n][0];
    assert forall i :: 0 <= i < n ==> r[i] == h[i];
  }

  lemma OpensMinute(h: Origins, x: nat)
    requires Cut(h) && (|h| > 0 ==> !OneMinute(h[|h| - 1][0], x))
    ensures Cut(h + [[x]])
  {
  }

  lemma DropsOldest(h: Origins, n: nat)
    requires Cut(h) && n <= |h|
    ensures Cut(h[n..])
  {
  }

  /** A fold of a segment with aggregates seals the open rollup exactly when the segment did not start
      in the minute of the one that opened it; the fold opens a rollup exactly when it seals one or
      there is none. */
  lemma FoldCutsByMinute(s: State, h: Origins)
    requires Knows(s, h) && |s.sealed| > 0 && (s.rollupActive.None? ==> s.rollups == [])
    ensures var g, r := s.sealed[0], CompactOldest(s);
            Knows(r, FoldOrigins(s, h)) && (r.rollupActive.None? ==> r.rollups == []) &&
            (|g.metrics| > 0 ==>
               var seals := s.rollupActive.Some? && !OneMinute(g.start, h[|h| - 1][0]);
               r.rollups == (if seals then s.rollups + [s.rollupActive.value] else s.rollups) &&
               r.rollupActive.Some? && r.bucket == g.start / 60_000_000_000)
  {
    var g := s.sealed[0];
    if |g.metrics| > 0 {
      hide AddAll;
      if s.rollupActive.Some? && OneMinute(g.start, h[|h| - 1][0]) {
        GathersMinute(h, g.start);
      } else {
        OpensMinute(h, g.start);
      }
    }
  }

  // ----- runs -----

  /** The origins of the `n` newest rollups. */
  function Newest(h: Origins, n: nat): Origins {
    if n <= |h| then h[|h| - n..] else h
  }

  function FoldUntilOrigins(s: State, h: Origins, cost: nat): Origins
    decreases |s.sealed|
  {
    if s.bytes + cost > s.max && |s.sealed| > 0
    then FoldUntilOrigins(CompactOldest(s), FoldOrigins(s, h), cost) else h
  }

  /** Rollups are lost oldest first; only folding adds to them. */
  function RoomOrigins(s: State, h: Origins, cost: nat, metric: bool): Origins {
    Newest(FoldUntilOrigins(s, h, cost), RollupCount(Room(s, cost, metric)))
  }

  function AdvanceOrigins(s: State, h: Origins, now: nat): Origins {
    if now < s.active.start then h
    else
      var b := Expire(Seal(s, now), now);
      RoomOrigins(b, Newest(h, RollupCount(b)), 0, true)
  }

  function StepOrigins(s: State, h: Origins, op: Op): Origins
    requires Buffered(s)
  {
    AdvanceKeepsBuffers(s, op.now);
    var t, g := Advance(s, op.now), AdvanceOrigins(s, h, op.now);
    match op
    case Tick(_) => g
    case Detail(e, now) => if Late(e, now, t.history) then g else RoomOrigins(t, g, EventCost(t.active, e), false)
    case Aggregate(m, _) => RoomOrigins(t, g, MetricCost(t.active, m), true)
  }

  function RunOrigins(s: State, h: Origins, ops: seq<Op>): Origins
    requires Buffered(s)
    decreases |ops|
  {
    if |ops| == 0 then h
    else
      StepKeepsBuffers(s, ops[0]);
      RunOrigins(Step(s, ops[0]), StepOrigins(s, h, ops[0]), ops[1..])
  }

  /** Only an empty tier has no open rollup. */
  predicate Sound(s: State, h: Origins) {
    Knows(s, h) && (s.rollupActive.None? ==> s.rollups == [])
  }

  lemma DropRollupSound(s: State, h: Origins, memory: bool)
    requires Sound(s, h) && HasRollup(s)
    ensures Sound(DropRollup(s, memory), Newest(h, RollupCount(s) - 1))
  {
    DropsOldest(h, 1);
  }

  lemma NewestNewest(h: Origins, m: nat, n: nat)
    requires n <= m <= |h|
    ensures Newest(Newest(h, m), n) == Newest(h, n)
  {
  }

  lemma {:induction false} EvictSound(s: State, h: Origins, cost: nat)
    requires Sound(s, h)
    ensures var r := EvictUntilFits(s, cost);
            RollupCount(r) <= RollupCount(s) && Sound(r, Newest(h, RollupCount(r)))
    decreases RollupCount(s)
  {
    if s.bytes + cost > s.max && HasRollup(s) {
      var t := DropRollup(s, true);
      DropRollupSound(s, h, true);
      EvictSound(t, Newest(h, RollupCount(t)), cost);
      NewestNewest(h, RollupCount(t), RollupCount(EvictUntilFits(s, cost)));
    } else {
      assert Newest(h, RollupCount(s)) == h;
    }
  }

  lemma {:induction false} ExpireRollupsSound(s: State, h: Origins, now: nat)
    requires Sound(s, h)
    ensures var r := ExpireRollups(s, now);
            RollupCount(r) <= RollupCount(s) && Sound(r, Newest(h, RollupCount(r))) &&
            r.rollupActive == s.rollupActive
    decreases |s.rollups|
  {
    if |s.rollups| > 0 && Aged(s.rollups[0].end, now, s.history) {
      var t := DropRollup(s, false);
      DropRollupSound(s, h, false);
      ExpireRollupsSound(t, Newest(h, RollupCount(t)), now);
      NewestNewest(h, RollupCount(t), RollupCount(ExpireRollups(s, now)));
    } else {
      assert Newest(h, RollupCount(s)) == h;
    }
  }

  lemma {:induction false} FoldSound(s: State, h: Origins, cost: nat)
    requires Sound(s, h)
    ensures Sound(FoldUntilFits(s, cost), FoldUntilOrigins(s, h, cost))
    decreases |s.sealed|
  {
    hide Knows, FoldOrigins;
    if s.bytes + cost > s.max && |s.sealed| > 0 {
      FoldCutsByMinute(s, h);
      FoldSound(CompactOldest(s), FoldOrigins(s, h), cost);
    }
  }

  lemma RoomSound(s: State, h: Origins, cost: nat, metric: bool)
    requires Sound(s, h)
    ensures Sound(Room(s, cost, metric), RoomOrigins(s, h, cost, metric))
  {
    hide FoldUntilFits, EvictUntilFits;
    FoldSound(s, h, cost);
    var t, g := FoldUntilFits(s, cost), FoldUntilOrigins(s, h, cost);
    if metric {
      EvictSound(t, g, cost);
    } else {
      assert Newest(g, RollupCount(t)) == g;
    }
  }

  lemma SameRollups(s: State, r: State, h: Origins)
    requires Sound(s, h) && r.rollups == s.rollups && r.rollupActive == s.rollupActive && r.bucket == s.bucket
    ensures Sound(r, h)
  {
  }

  lemma {:induction false} ExpireSealedSame(s: State, now: nat)
    ensures var r := ExpireSealed(s, now);
            r.rollups == s.rollups && r.rollupActive == s.rollupActive && r.bucket == s.bucket
    decreases |s.sealed|
  {
    if |s.sealed| > 0 && Aged(s.sealed[0].end, now, s.history) {
      ExpireSealedSame(DropRaw(s, false), now);
    }
  }

  lemma ExpireSound(s: State, h: Origins, now: nat)
    requires Sound(s, h)
    ensures var r := Expire(s, now); RollupCount(r) <= RollupCount(s) && Sound(r, Newest(h, RollupCount(r)))
  {
    hide ExpireSealed, ExpireRollups, Sound;
    var a := ExpireSealed(s, now);
    ExpireSealedSame(s, now);
    SameRollups(s, a, h);
    var b := ExpireRollups(a, now);
    ExpireRollupsSound(a, h, now);
    if b.rollupActive.Some? && Aged(b.rollupActive.value.end, now, b.history) {
      var k := Newest(h, RollupCount(b));
      SizeOf(b, k);
      SizeOf(a, h);
      DropRollupSound(b, k, false);
      NewestNewest(h, RollupCount(b), RollupCount(b) - 1);
    }
  }

  lemma SizeOf(s: State, h: Origins)
    requires Sound(s, h)
    ensures |h| == RollupCount(s)
  {
  }

  lemma AdvanceSound(s: State, h: Origins, now: nat)
    requires Sound(s, h)
    ensures Sound(Advance(s, now), AdvanceOrigins(s, h, now))
  {
    hide Sound, Expire, FoldUntilFits, EvictUntilFits, RoomOrigins, Newest;
    if now >= s.active.start {
      var a := Seal(s, now);
      SameRollups(s, a, h);
      ExpireSound(a, h, now);
      RoomSound(Expire(a, now), Newest(h, RollupCount(Expire(a, now))), 0, true);
    }
  }

  lemma StepSound(s: State, h: Origins, op: Op)
    requires Buffered(s) && Sound(s, h)
    ensures Sound(Step(s, op), StepOrigins(s, h, op))
  {
    hide Sound, Advance, AdvanceOrigins, RoomOrigins, Room, AcceptEvent, AcceptMetric;
    AdvanceSound(s, h, op.now);
    var t, g := Advance(s, op.now), AdvanceOrigins(s, h, op.now);
    match op
    case Tick(_) =>
    case Detail(e, now) =>
      EventOutcome(s, e, now);
      var u, k := Room(t, EventCost(t.active, e), false), RoomOrigins(t, g, EventCost(t.active, e), false);
      RoomSound(t, g, EventCost(t.active, e), false);
      SameRollups(t, Drop(t), g);
      SameRollups(u, Drop(u), k);
      SameRollups(u, AddEvent(u, e), k);
    case Aggregate(m, now) =>
      MetricOutcome(s, m, now);
      var u, k := Room(t, MetricCost(t.active, m), true), RoomOrigins(t, g, MetricCost(t.active, m), true);
      RoomSound(t, g, MetricCost(t.active, m), true);
      SameRollups(u, Drop(u), k);
      SameRollups(u, AddMetric(u, m), k);
  }

  lemma {:induction false} RunSound(s: State, h: Origins, ops: seq<Op>)
    requires Buffered(s) && Sound(s, h)
    ensures Sound(Run(s, ops), RunOrigins(s, h, ops))
    decreases |ops|
  {
    hide Sound, Step, StepOrigins;
    if |ops| > 0 {
      StepSound(s, h, ops[0]);
      StepKeepsBuffers(s, ops[0]);
      RunSound(Step(s, ops[0]), StepOrigins(s, h, ops[0]), ops[1..]);
    }
  }

  /** Over any run: each rollup was made of segments that started in one and the same minute, and
      no two rollups in a row of segments of the same minute. */
  lemma RollupsHoldOneMinute(history: nat, max: nat, interval: nat, started: nat, ops: seq<Op>)
    ensures Buffered(New(history, max, interval, started))
    ensures var s := New(history, max, interval, started);
            var r, h := Run(s, ops), RunOrigins(s, [], ops);
            |h| == |Rollups(r)| &&
            (forall i, a, b :: 0 <= i < |h| && 0 <= a < |h[i]| && 0 <= b < |h[i]| ==>
               h[i][a] / 60_000_000_000 == h[i][b] / 60_000_000_000) &&
            forall i :: 0 <= i < |h| ==>
              |h[i]| > 0 && (i > 0 ==> h[i - 1][0] / 60_000_000_000 != h[i][0] / 60_000_000_000)
  {
    var s := New(history, max, interval, started);
    assert Buffered(s) && Sound(s, []);
    RunSound(s, [], ops);
    var h := RunOrigins(s, [], ops);
    CutMeans(h) by { SoundCut(Run(s, ops), h); }
    SizeOf(Run(s, ops), h);
    hide Run, RunOrigins;
  }

  lemma SoundCut(s: State, h: Origins)
    requires Sound(s, h)
    ensures Cut(h)
  {
  }

  lemma CutMeans(h: Origins)
    requires Cut(h)
    ensures forall i, a, b :: 0 <= i < |h| && 0 <= a < |h[i]| && 0 <= b < |h[i]| ==>
              h[i][a] / 60_000_000_000 == h[i][b] / 60_000_000_000
    ensures forall i :: 0 <= i < |h| ==>
              |h[i]| > 0 && (i > 0 ==> h[i - 1][0] / 60_000_000_000 != h[i][0] / 60_000_000_000)
  {
    forall i, a, b | 0 <= i < |h| && 0 <= a < |h[i]| && 0 <= b < |h[i]|
      ensures h[i][a] / 60_000_000_000 == h[i][b] / 60_000_000_000
    {
      assert h[i][a] in h[i] && h[i][b] in h[i];
      assert OneMinute(h[i][a], h[i][0]) && OneMinute(h[i][b], h[i][0]);
    }
  }
}
