/** A concrete run of the recorder alone that ends over budget: its bound is not unconditional.
    The recorder loop never makes these calls: its polls leave no gaps, and `RecorderPolling`
    shows that such polls keep any budget. */
module RecorderOverrun {
  import opened Telemetry
  import opened RecorderSpec
  import opened RecorderInvariant

  // Nine gapped intervals of one family: none continues another.
  function Gapped(i: nat): Metric {
    Metric(BLOCK_IO, 2 * i, 2 * i + 1, Zero())
  }

  const MAX: nat := 4232
  const SOME_EVENT := Event(100, BLOCK_IO, 1, 1, 1, 0, 0, Text("", "", "", "", "", "", "", ""))

  function Gaps(n: nat): seq<Metric> {
    seq(n, i requires 0 <= i < n => Gapped(i))
  }

  /** The recorder after polling `n` gapped intervals into its first segment. */
  function Polled(n: nat): State {
    var cap := if n == 0 then 0 else if n <= 4 then 4 else 8;
    var bytes := SEGMENT_COST + MetricBytes(cap) + 8 * n;
    var now := if n == 0 then 0 else 2 * n - 1;
    State(0, 100, 1000, MAX, bytes, [], None, 0, [], Seg(0, now, [], 0, Gaps(n), cap, bytes, 0, now), 0, 0, 0,
          Ledger(Gaps(n), [], []))
  }

  lemma PollNext(n: nat)
    requires n < 8
    ensures Buffered(Polled(n))
    ensures Step(Polled(n), Aggregate(Gapped(n), 2 * n + 1)) == Polled(n + 1)
  {
    var s := Polled(n);
    var m, now := Gapped(n), 2 * n + 1;
    assert Seal(s, now) == s.(active := s.active.(end := now));
    var t := Advance(s, now);
    assert t == s.(active := s.active.(end := now));
    assert Gaps(n + 1) == Gaps(n) + [m];
    assert MetricCost(t.active, m) == 8 + if n == 0 || n == 4 then MetricBytes(4) else 0;
    assert Room(t, MetricCost(t.active, m), true) == t;
  }

  /** The rollup that holds the first `n` gapped intervals. */
  function Rolled(n: nat): Seg {
    var cap := if n == 0 then 0 else if n <= 4 then 4 else if n <= 8 then 8 else 16;
    var end := if n == 0 then 1 else 2 * n - 1;
    Seg(0, end, [], 0, Gaps(n), cap, SEGMENT_COST + MetricBytes(cap), 0, end)
  }

  lemma RollNext(n: nat)
    requires n <= 8
    ensures AddToRollup(Rolled(n), Gapped(n)) == Rolled(n + 1)
  {
    assert Gaps(n + 1) == Gaps(n) + [Gapped(n)];
    assert MergeIndex(Gaps(n), Gapped(n)) == n;
  }

  lemma {:induction false} RollFrom(k: nat)
    requires k <= 8
    ensures AddAll(Rolled(k), Gaps(8)[k..]) == Rolled(8)
    decreases 8 - k
  {
    if k < 8 {
      RollNext(k);
      assert Gaps(8)[k..][0] == Gapped(k) && Gaps(8)[k..][1..] == Gaps(8)[k + 1..];
      RollFrom(k + 1);
    }
  }

  function Detail100(): Op {
    Detail(SOME_EVENT, 100)
  }

  function Detail200(): Op {
    Detail(SOME_EVENT.(mono := 200), 200)
  }

  // The ninth interval is polled into the second segment.
  function Ninth(): Metric {
    Metric(BLOCK_IO, 120, 121, Zero())
  }

  function Sealed(): State {
    var s := Polled(8);
    s.(sealed := [s.active.(end := 100)], active := Fresh(100), bytes := 2880)
  }

  function Folded(): State {
    Sealed().(sealed := [], bytes := 2816, rollupActive := Some(Rolled(8)), drops := 1, evictions := 1)
  }

  function Second(): Seg {
    Seg(100, 121, [], 0, [Ninth()], 4, SEGMENT_COST + MetricBytes(4) + 8, 100, 121)
  }

  function PolledAgain(): State {
    Folded().(active := Second(), bytes := 3720, ledger := Ledger(Gaps(8) + [Ninth()], [], []))
  }

  function SealedAgain(): State {
    PolledAgain().(sealed := [Second().(end := 200)], active := Fresh(200), bytes := MAX)
  }

  lemma SealFirst()
    ensures Step(Polled(8), Tick(100)) == Sealed()
  {
    var a := Seal(Polled(8), 100);
    assert a == Sealed();
    assert Expire(a, 100) == a;
  }

  lemma OpenFirst()
    ensures Rolled(0) == NewRollup(Gapped(0))
    ensures OpenRollup(DropRaw(Sealed(), true), Sealed().sealed[0])
         == Folded().(drops := 0, rollupActive := Some(Rolled(0)), bytes := 1024)
  {
    assert Gaps(0) == [];
    assert Sealed().sealed[0].metrics[0] == Gapped(0);
    assert DropRaw(Sealed(), true) == Sealed().(sealed := [], bytes := 512, evictions := 1);
  }

  lemma CompactFirst()
    ensures CompactOldest(Sealed()) == Folded().(drops := 0)
  {
    hide AddAll, MergeIndex;
    OpenFirst();
    assert Gaps(8)[0..] == Sealed().sealed[0].metrics;
    assert |Sealed().sealed[0].metrics| == 8;
    RollFrom(0);
  }

  lemma FoldFirst()
    ensures Buffered(Sealed()) && Step(Sealed(), Detail100()) == Folded()
  {
    hide CompactOldest, Gaps, Rolled;
    var s, t := Sealed(), Folded().(drops := 0);
    assert Advance(s, 100) == s by {
      assert Seal(s, 100) == s;
      assert Expire(s, 100) == s;
    }
    var cost := EventCost(s.active, SOME_EVENT);
    assert cost == 8 + EventBytes(64);
    CompactFirst();
    assert FoldUntilFits(t, cost) == t;
    assert Room(s, cost, false) == t;
  }

  lemma PollSecond()
    ensures Buffered(Folded()) && Step(Folded(), Aggregate(Ninth(), 121)) == PolledAgain()
  {
    var s := Folded();
    var t := s.(active := s.active.(end := 121));
    assert Advance(s, 121) == t by {
      assert Seal(s, 121) == t;
      assert Expire(t, 121) == t;
    }
    assert MetricCost(t.active, Ninth()) == 8 + MetricBytes(4);
  }

  lemma SealSecond()
    ensures Buffered(PolledAgain()) && Step(PolledAgain(), Tick(200)) == SealedAgain()
  {
    var a := Seal(PolledAgain(), 200);
    assert a == SealedAgain();
    assert Expire(a, 200) == a;
  }

  lemma CompactSecond()
    ensures var r := CompactOldest(SealedAgain());
            r.bytes == 4608 && r.sealed == [] && r.active == SealedAgain().active && r.max == MAX
  {
    var s := SealedAgain();
    var t := DropRaw(s, true);
    var u := OpenRollup(t, s.sealed[0]);
    assert u == t;
    assert MergeIndex(Gaps(8), Ninth()) == 8;
    var a := AddToRollup(Rolled(8), Ninth());
    assert a.bytes == SEGMENT_COST + MetricBytes(16);
    assert AddAll(Rolled(8), [Ninth()]) == AddAll(a, [Ninth()][1..]) == a;
  }

  lemma FoldSecond()
    ensures Buffered(SealedAgain()) && Step(SealedAgain(), Detail200()).bytes == 4608
  {
    hide CompactOldest, Gaps, Rolled;
    var s := SealedAgain();
    assert Advance(s, 200) == s by {
      assert Seal(s, 200) == s;
      assert Expire(s, 200) == s;
    }
    var cost := EventCost(s.active, SOME_EVENT.(mono := 200));
    assert cost == 8 + EventBytes(64);
    CompactSecond();
    var t := CompactOldest(s);
    assert FoldUntilFits(t, cost) == t;
    assert Room(s, cost, false) == t;
  }

  function Polls(n: nat): seq<Op> {
    seq(n, i requires 0 <= i < n => Aggregate(Gapped(i), 2 * i + 1))
  }

  /** Eight gapped polls, a detail that must fold them, one more poll, and a second detail. */
  function OverrunOps(): seq<Op> {
    Polls(8) + [Tick(100), Detail100(), Aggregate(Ninth(), 121), Tick(200), Detail200()]
  }

  lemma PollsNext(n: nat)
    ensures Polls(n + 1) == Polls(n) + [Aggregate(Gapped(n), 2 * n + 1)]
  {
  }

  lemma {:induction false} RunPolls(n: nat)
    requires n <= 8
    ensures Run(Polled(0), Polls(n)) == Polled(n)
  {
    if n > 0 {
      hide Polled, Step, Polls, Gapped;
      var last := Aggregate(Gapped(n - 1), 2 * (n - 1) + 1);
      NewBuffered();
      RunPolls(n - 1);
      PollNext(n - 1);
      PollsNext(n - 1);
      RunConcat(Polled(0), Polls(n - 1), [last]);
      RunOne(Polled(n - 1), last);
    }
  }

  /** Every call offers an interval that has ended, yet the history ends over its budget: the
      gaps between the offered intervals give the rollup an entry for each, and folding the
      ninth doubles its buffer. */
  lemma GapsOverrunBudget()
    ensures forall op :: op in OverrunOps() ==> Legal(op)
    ensures Run(New(1000, MAX, 100, 0), OverrunOps()).bytes == 4608 > MAX
  {
    hide Polled, Folded, SealedAgain, PolledAgain, Sealed, New, Step;
    var s := New(1000, MAX, 100, 0);
    NewBuffered();
    var d0, d1, d2, d3, d4 := Tick(100), Detail100(), Aggregate(Ninth(), 121), Tick(200), Detail200();
    assert OverrunOps() == Polls(8) + ([d0] + ([d1] + ([d2] + ([d3] + [d4]))));
    RunConcat(s, Polls(8), [d0] + ([d1] + ([d2] + ([d3] + [d4]))));
    RunPolls(8);
    SealFirst();
    FoldFirst();
    PollSecond();
    SealSecond();
    FoldSecond();
    RunCons(Polled(8), d0, [d1] + ([d2] + ([d3] + [d4])));
    RunCons(Sealed(), d1, [d2] + ([d3] + [d4]));
    RunCons(Folded(), d2, [d3] + [d4]);
    RunCons(PolledAgain(), d3, [d4]);
    RunOne(SealedAgain(), d4);
  }

  lemma NewBuffered()
    ensures Buffered(New(1000, MAX, 100, 0)) && Buffered(Polled(0)) && Buffered(Polled(8))
    ensures New(1000, MAX, 100, 0) == Polled(0)
  {
    assert Gaps(0) == [];
  }
}
