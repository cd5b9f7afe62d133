/** Time expiry is exact: with metric ends that never go back, an advance drops the
    segments and rollups that are old enough and nothing else. */
module RecorderExpiry {
  import opened Telemetry
  import opened RecorderSpec
  import opened RecorderInvariant

  /** The segments that are not yet `history` old. */
  function Unexpired(gs: seq<Seg>, now: nat, history: nat): seq<Seg> {
    if |gs| == 0 then []
    else (if Aged(gs[0].end, now, history) then [] else [gs[0]]) + Unexpired(gs[1..], now, history)
  }

  /** The metrics of the segments that are. */
  function AgedMetrics(gs: seq<Seg>, now: nat, history: nat): seq<Metric> {
    if |gs| == 0 then []
    else (if Aged(gs[0].end, now, history) then gs[0].metrics else []) + AgedMetrics(gs[1..], now, history)
  }

  predicate Ascending(gs: seq<Seg>) {
    forall i, j :: 0 <= i < j < |gs| ==> gs[i].end <= gs[j].end
  }

  lemma {:induction false} NoneAged(gs: seq<Seg>, now: nat, history: nat)
    requires forall g :: g in gs ==> !Aged(g.end, now, history)
    ensures Unexpired(gs, now, history) == gs && AgedMetrics(gs, now, history) == []
  {
    if |gs| > 0 {
      assert gs[0] in gs;
      NoneAged(gs[1..], now, history);
    }
  }

  lemma NothingToExpire(now: nat, history: nat)
    ensures Unexpired([], now, history) == [] && AgedMetrics([], now, history) == []
  {
  }

  lemma AscendingRest(gs: seq<Seg>)
    requires Ascending(gs) && |gs| > 0
    ensures Ascending(gs[1..])
  {
  }

  lemma FirstUnaged(gs: seq<Seg>, now: nat, history: nat)
    requires Ascending(gs) && |gs| > 0 && !Aged(gs[0].end, now, history)
    ensures forall g :: g in gs ==> !Aged(g.end, now, history)
  {
    forall g | g in gs ensures !Aged(g.end, now, history) {
      var k :| 0 <= k < |gs| && gs[k] == g;
      assert gs[0].end <= gs[k].end;
    }
  }

  lemma AgedFirst(gs: seq<Seg>, now: nat, history: nat, lost: seq<Metric>)
    requires |gs| > 0 && Aged(gs[0].end, now, history)
    ensures Unexpired(gs, now, history) == Unexpired(gs[1..], now, history)
    ensures lost + AgedMetrics(gs, now, history) == lost + gs[0].metrics + AgedMetrics(gs[1..], now, history)
  {
  }

  lemma {:induction false} ExpireSealedExact(s: State, now: nat)
    requires Ascending(s.sealed)
    ensures var r := ExpireSealed(s, now);
            r.sealed == Unexpired(s.sealed, now, s.history) &&
            r.ledger.expired == s.ledger.expired + AgedMetrics(s.sealed, now, s.history)
    decreases |s.sealed|
  {
    hide Ascending, Unexpired, AgedMetrics;
    NothingToExpire(now, s.history);
    if |s.sealed| > 0 {
      AscendingRest(s.sealed);
      if Aged(s.sealed[0].end, now, s.history) {
        ExpireSealedExact(DropRaw(s, false), now);
        AgedFirst(s.sealed, now, s.history, s.ledger.expired);
      } else {
        FirstUnaged(s.sealed, now, s.history);
        NoneAged(s.sealed, now, s.history);
        assert s.ledger.expired + [] == s.ledger.expired;
      }
    }
  }

  lemma {:induction false} ExpireRollupsExact(s: State, now: nat)
    requires Ascending(s.rollups)
    ensures var r := ExpireRollups(s, now);
            r.rollups == Unexpired(s.rollups, now, s.history) &&
            r.ledger.expired == s.ledger.expired + AgedMetrics(s.rollups, now, s.history)
    decreases |s.rollups|
  {
    hide Ascending, Unexpired, AgedMetrics;
    NothingToExpire(now, s.history);
    if |s.rollups| > 0 {
      AscendingRest(s.rollups);
      if Aged(s.rollups[0].end, now, s.history) {
        ExpireRollupsExact(DropRollup(s, false), now);
        AgedFirst(s.rollups, now, s.history, s.ledger.expired);
      } else {
        FirstUnaged(s.rollups, now, s.history);
        NoneAged(s.rollups, now, s.history);
        assert s.ledger.expired + [] == s.ledger.expired;
      }
    }
  }

  lemma {:induction false} AllAged(gs: seq<Seg>, now: nat, history: nat)
    requires forall g :: g in gs ==> Aged(g.end, now, history)
    ensures Unexpired(gs, now, history) == []
  {
    if |gs| > 0 {
      assert gs[0] in gs;
      AllAged(gs[1..], now, history);
    }
  }

  // ----- the tiers in order of metric end -----

  predicate EndsAscend(ms: seq<Metric>) {
    forall i, j :: 0 <= i < j < |ms| ==> ms[i].end <= ms[j].end
  }

  function LastEnd(ms: seq<Metric>): nat {
    if |ms| == 0 then 0 else ms[|ms| - 1].end
  }

  predicate RollupsAscend(s: State) {
    Ascending(s.rollups) &&
    (s.rollupActive.Some? ==> forall g :: g in s.rollups ==> g.end <= s.rollupActive.value.end)
  }

  /** Every rollup ends no later than `m`. */
  predicate RollupsBefore(s: State, end: nat) {
    (forall g :: g in s.rollups ==> g.end <= end) &&
    (s.rollupActive.Some? ==> s.rollupActive.value.end <= end)
  }

  /** Rollups ascend, raw metrics ascend after them, and nothing ends after `last`. */
  predicate EndOrder(s: State, last: nat) {
    RollupsAscend(s) && EndsAscend(RawMetrics(s)) && RollupsBefore(s, last) &&
    forall m :: m in RawMetrics(s) ==> m.end <= last && RollupsBefore(s, m.end)
  }

  /** An expiry removes exactly the sealed segments and rollups that have aged. */
  lemma ExpireExact(s: State, now: nat)
    requires Inv(s) && RollupsAscend(s)
    ensures var r := Expire(s, now);
            r.sealed == Unexpired(s.sealed, now, s.history) &&
            r.rollups == Unexpired(s.rollups, now, s.history) &&
            r.rollupActive == (if s.rollupActive.Some? && Aged(s.rollupActive.value.end, now, s.history)
                               then None else s.rollupActive)
  {
    SealedAscend(s);
    hide Inv, AgedMetrics;
    ExpireSealedExact(s, now);
    ExpireSealedFrame(s, now);
    var a := ExpireSealed(s, now);
    ExpireRollupsExact(a, now);
    ExpireRollupsFrame(a, now);
    if s.rollupActive.Some? && Aged(s.rollupActive.value.end, now, s.history) {
      AllAged(s.rollups, now, s.history);
    }
  }

  /** And what it removes is recorded as expired. */
  lemma ExpireLedger(s: State, now: nat)
    requires Inv(s) && RollupsAscend(s)
    ensures Expire(s, now).ledger.expired == s.ledger.expired + AgedHistory(s, now)
  {
    SealedAscend(s);
    RollupsUpToActive(s, now);
    hide Inv, Ascending, Unexpired, AgedMetrics, ExpireSealed, ExpireRollups, RollupsAscend, ExpireRollupActive;
    SameHistory(s, now);
    ExpireSealedExact(s, now);
    var a := ExpireSealed(s, now);
    ExpireRollupsExact(a, now);
    var b := ExpireRollups(a, now);
    ActiveLedger(b, now);
    InTurn(s.ledger.expired, AgedMetrics(s.sealed, now, s.history), AgedMetrics(s.rollups, now, s.history),
      if s.rollupActive.Some? && Aged(s.rollupActive.value.end, now, s.history) then s.rollupActive.value.metrics
      else []);
  }

  lemma RollupsUpToActive(s: State, now: nat)
    requires RollupsAscend(s)
    ensures Ascending(s.rollups)
    ensures s.rollupActive.Some? && Aged(s.rollupActive.value.end, now, s.history) ==>
              Unexpired(s.rollups, now, s.history) == []
  {
    if s.rollupActive.Some? && Aged(s.rollupActive.value.end, now, s.history) {
      AllAged(s.rollups, now, s.history);
    }
  }

  lemma ActiveLedger(s: State, now: nat)
    requires s.rollupActive.Some? && Aged(s.rollupActive.value.end, now, s.history) ==> s.rollups == []
    ensures ExpireRollupActive(s, now).ledger.expired == s.ledger.expired +
              if s.rollupActive.Some? && Aged(s.rollupActive.value.end, now, s.history)
              then s.rollupActive.value.metrics else []
  {
  }

  lemma InTurn(e: seq<Metric>, x: seq<Metric>, y: seq<Metric>, z: seq<Metric>)
    ensures e + x + y + z == e + (x + y + z)
  {
  }

  lemma SameHistory(s: State, now: nat)
    ensures var a := ExpireSealed(s, now);
            a.history == s.history && a.rollups == s.rollups && a.rollupActive == s.rollupActive &&
            ExpireRollups(a, now).history == s.history && ExpireRollups(a, now).rollupActive == s.rollupActive
  {
    ExpireSealedFrame(s, now);
    ExpireRollupsFrame(ExpireSealed(s, now), now);
  }

  lemma SealedAscend(s: State)
    requires Inv(s)
    ensures Ascending(s.sealed)
  {
    forall i, j | 0 <= i < j < |s.sealed|
      ensures s.sealed[i].end <= s.sealed[j].end
    {
      assert s.sealed[j] in s.sealed;
    }
  }

  // ----- the order over runs -----

  /** Whatever only removes history, or keeps it, keeps the order. */
  lemma FewerInOrder(s: State, r: State, last: nat)
    requires EndOrder(s, last)
    requires |r.rollups| <= |s.rollups| && r.rollups == s.rollups[|s.rollups| - |r.rollups|..]
    requires r.rollupActive == s.rollupActive || r.rollupActive.None?
    requires |RawMetrics(r)| <= |RawMetrics(s)|
    requires RawMetrics(r) == RawMetrics(s)[|RawMetrics(s)| - |RawMetrics(r)|..]
    ensures EndOrder(r, last)
  {
    var n := |s.rollups| - |r.rollups|;
    var k := |RawMetrics(s)| - |RawMetrics(r)|;
    assert forall i :: 0 <= i < |r.rollups| ==> r.rollups[i] == s.rollups[n + i];
    assert forall i :: 0 <= i < |RawMetrics(r)| ==> RawMetrics(r)[i] == RawMetrics(s)[k + i];
    assert forall m :: m in RawMetrics(r) ==> m in RawMetrics(s);
  }

  lemma SealInOrder(s: State, now: nat, last: nat)
    requires s.active.start <= now && EndOrder(s, last)
    ensures EndOrder(Seal(s, now), last)
  {
    MetricsOfAppend(s.sealed, s.active.(end := s.active.start + s.interval));
    assert RawMetrics(Seal(s, now)) == RawMetrics(s);
  }

  lemma {:induction false} ExpireSealedInOrder(s: State, now: nat, last: nat)
    requires EndOrder(s, last)
    ensures EndOrder(ExpireSealed(s, now), last)
    decreases |s.sealed|
  {
    if |s.sealed| > 0 && Aged(s.sealed[0].end, now, s.history) {
      var r := DropRaw(s, false);
      assert RawMetrics(s) == s.sealed[0].metrics + RawMetrics(r);
      FewerInOrder(s, r, last);
      ExpireSealedInOrder(r, now, last);
    }
  }

  lemma {:induction false} ExpireRollupsInOrder(s: State, now: nat, last: nat)
    requires EndOrder(s, last)
    ensures EndOrder(ExpireRollups(s, now), last)
    decreases |s.rollups|
  {
    if |s.rollups| > 0 && Aged(s.rollups[0].end, now, s.history) {
      var r := DropRollup(s, false);
      FewerInOrder(s, r, last);
      ExpireRollupsInOrder(r, now, last);
    }
  }

  lemma {:induction false} EvictInOrder(s: State, cost: nat, last: nat)
    requires EndOrder(s, last)
    ensures EndOrder(EvictUntilFits(s, cost), last)
    decreases RollupCount(s)
  {
    if s.bytes + cost > s.max && HasRollup(s) {
      var r := DropRollup(s, true);
      FewerInOrder(s, r, last);
      EvictInOrder(r, cost, last);
    }
  }

  lemma {:induction false} AddAllReaches(a: Seg, ms: seq<Metric>)
    ensures AddAll(a, ms).end >= a.end
    decreases |ms|
  {
    if |ms| > 0 {
      AddAllReaches(AddToRollup(a, ms[0]), ms[1..]);
    }
  }

  lemma CompactInOrder(s: State, last: nat)
    requires Inv(s) && EndOrder(s, last) && |s.sealed| > 0
    ensures EndOrder(CompactOldest(s), last)
  {
    var oldest, t, r := s.sealed[0], DropRaw(s, true), CompactOldest(s);
    var ms, rest := oldest.metrics, RawMetrics(DropRaw(s, true));
    assert RawMetrics(s) == ms + rest;
    FewerInOrder(s, t, last);
    if |ms| > 0 {
      assert RawMetrics(r) == rest;
      CompactedRollups(s, last);
    }
  }

  lemma SplitAscending(a: seq<Metric>, b: seq<Metric>)
    requires EndsAscend(a + b) && |a| > 0
    ensures forall m :: m in a ==> m.end <= a[|a| - 1].end
    ensures forall m :: m in b ==> a[|a| - 1].end <= m.end
    ensures a[0].end <= a[|a| - 1].end
  {
    var ab, n := a + b, |a| - 1;
    assert ab[n] == a[n] && ab[0] == a[0];
    forall m | m in a
      ensures m.end <= a[n].end
    {
      var k :| 0 <= k < |a| && a[k] == m;
      assert ab[k] == m;
    }
    forall m | m in b
      ensures a[n].end <= m.end
    {
      var k :| 0 <= k < |b| && b[k] == m;
      assert ab[|a| + k] == m;
    }
  }

  lemma OpenAscends(t: State, oldest: Seg)
    requires |oldest.metrics| > 0 && RollupsAscend(t) && RollupsBefore(t, oldest.metrics[0].end)
    ensures RollupsAscend(OpenRollup(t, oldest)) && RollupsBefore(OpenRollup(t, oldest), oldest.metrics[0].end)
  {
  }

  lemma AddMetricsAscends(u: State, ms: seq<Metric>, limit: nat)
    requires u.rollupActive.Some? && RollupsAscend(u) && RollupsBefore(u, limit)
    requires RollupShape(u.rollupActive.value)
    requires forall m :: m in ms ==> m.start <= m.end <= limit
    ensures RollupsAscend(AddMetrics(u, ms)) && RollupsBefore(AddMetrics(u, ms), limit)
  {
    AddAllHolds(u.rollupActive.value, ms, limit);
    AddAllReaches(u.rollupActive.value, ms);
  }

  lemma CompactedRollups(s: State, last: nat)
    requires Inv(s) && EndOrder(s, last) && |s.sealed| > 0 && |s.sealed[0].metrics| > 0
    ensures var r := CompactOldest(s);
            RollupsAscend(r) && RollupsBefore(r, last) &&
            forall m :: m in RawMetrics(DropRaw(s, true)) ==> RollupsBefore(r, m.end)
  {
    var t, oldest := DropRaw(s, true), s.sealed[0];
    var ms, rest := oldest.metrics, RawMetrics(t);
    var limit := ms[|ms| - 1].end;
    assert RawMetrics(s) == ms + rest;
    assert ms[0] in ms + rest && ms[|ms| - 1] in ms + rest;
    SplitAscending(ms, rest);
    DropRawHolds(s, true);
    OldestPrecedes(s);
    OldestForward(s);
    OpenRollupHolds(t, oldest);
    OpenAscends(t, oldest);
    AddMetricsAscends(OpenRollup(t, oldest), ms, limit);
    BeforeLater(CompactOldest(s), limit, last);
    forall m | m in rest
      ensures RollupsBefore(CompactOldest(s), m.end)
    {
      BeforeLater(CompactOldest(s), limit, m.end);
    }
  }

  lemma BeforeLater(s: State, end: nat, later: nat)
    requires RollupsBefore(s, end) && end <= later
    ensures RollupsBefore(s, later)
  {
  }

  lemma OldestForward(s: State)
    requires Inv(s) && |s.sealed| > 0
    ensures forall m :: m in s.sealed[0].metrics ==> m.start <= m.end
  {
    assert s.sealed[0] in s.sealed;
  }

  lemma {:induction false} FoldInOrder(s: State, cost: nat, last: nat)
    requires Inv(s) && EndOrder(s, last)
    ensures EndOrder(FoldUntilFits(s, cost), last)
    decreases |s.sealed|
  {
    if s.bytes + cost > s.max && |s.sealed| > 0 {
      CompactInOrder(s, last);
      CompactHolds(s);
      FoldInOrder(CompactOldest(s), cost, last);
    }
  }

  lemma AdvanceInOrder(s: State, now: nat, last: nat)
    requires Inv(s) && EndOrder(s, last)
    ensures EndOrder(Advance(s, now), last)
    ensures now >= s.active.start ==> EndOrder(Seal(s, now), last) && Inv(Seal(s, now))
  {
    if now >= s.active.start {
      hide EndOrder;
      var a := Seal(s, now);
      SealInOrder(s, now, last);
      SealHolds(s, now);
      ExpireSealedInOrder(a, now, last);
      ExpireRollupsInOrder(ExpireSealed(a, now), now, last);
      var b := ExpireRollups(ExpireSealed(a, now), now);
      if b.rollupActive.Some? && Aged(b.rollupActive.value.end, now, b.history) {
        DropInOrder(b, last);
      }
      ExpireHolds(a, now);
      FoldInOrder(Expire(a, now), 0, last);
      EvictInOrder(FoldUntilFits(Expire(a, now), 0), 0, last);
    }
  }

  lemma DropInOrder(s: State, last: nat)
    requires HasRollup(s) && EndOrder(s, last)
    ensures EndOrder(DropRollup(s, false), last)
  {
    FewerInOrder(s, DropRollup(s, false), last);
  }

  lemma SameInOrder(s: State, r: State, last: nat)
    requires EndOrder(s, last) && r.rollups == s.rollups && r.rollupActive == s.rollupActive
    requires RawMetrics(r) == RawMetrics(s)
    ensures EndOrder(r, last)
  {
  }

  lemma EventInOrder(s: State, e: Event, now: nat, last: nat)
    requires Inv(s) && EndOrder(s, last)
    ensures EndOrder(AcceptEvent(s, e, now), last)
    ensures AcceptEvent(s, e, now).ledger.accepted == s.ledger.accepted
  {
    InvBuffers(s);
    hide *;
    AdvanceHolds(s, now);
    AdvanceFrame(s, now);
    AdvanceInOrder(s, now, last);
    EventOutcome(s, e, now);
    EventKeepsOrder(Advance(s, now), e, last);
  }

  lemma EventKeepsOrder(t: State, e: Event, last: nat)
    requires Inv(t) && Buffered(t) && EndOrder(t, last)
    ensures var u := Room(t, EventCost(t.active, e), false);
            Buffered(u) && EndOrder(Drop(t), last) && EndOrder(Drop(u), last) && EndOrder(AddEvent(u, e), last) &&
            Drop(t).ledger == Drop(u).ledger == AddEvent(u, e).ledger == t.ledger
  {
    hide EndOrder, Inv;
    var cost := EventCost(t.active, e);
    FoldInOrder(t, cost, last);
    FoldFrame(t, cost);
    var u := Room(t, cost, false);
    SameInOrder(t, Drop(t), last);
    SameInOrder(u, Drop(u), last);
    SameInOrder(u, AddEvent(u, e), last);
  }

  lemma AddMetricInOrder(s: State, m: Metric, last: nat)
    requires Buffered(s) && EndOrder(s, last) && last <= m.end
    ensures EndOrder(AddMetric(s, m), m.end)
  {
    assert RawMetrics(AddMetric(s, m)) == RawMetrics(s) + [m];
  }

  lemma MetricInOrder(s: State, m: Metric, now: nat, last: nat)
    requires Inv(s) && EndOrder(s, last) && m.start <= m.end <= now
    requires var r := AcceptMetric(s, m, now); r.ledger.accepted != s.ledger.accepted ==> last <= m.end
    ensures var r := AcceptMetric(s, m, now);
            if r.ledger.accepted == s.ledger.accepted then EndOrder(r, last)
            else r.ledger.accepted == s.ledger.accepted + [m] && EndOrder(r, m.end)
  {
    hide EndOrder;
    AdvanceHolds(s, now);
    AdvanceFrame(s, now);
    AdvanceInOrder(s, now, last);
    var t := Advance(s, now);
    var cost := MetricCost(t.active, m);
    FoldInOrder(t, cost, last);
    FoldFrame(t, cost);
    EvictInOrder(FoldUntilFits(t, cost), cost, last);
    EvictFrame(FoldUntilFits(t, cost), cost);
    var u := Room(t, cost, true);
    if u.bytes + cost <= u.max {
      AddMetricInOrder(u, m, last);
    } else {
      SameInOrder(u, Drop(u), last);
    }
  }

  lemma StepInOrder(s: State, op: Op)
    requires Inv(s) && EndOrder(s, LastEnd(s.ledger.accepted)) && Legal(op)
    requires EndsAscend(Step(s, op).ledger.accepted)
    ensures EndOrder(Step(s, op), LastEnd(Step(s, op).ledger.accepted))
  {
    hide EndOrder, Advance, AcceptEvent, AcceptMetric, EndsAscend;
    var last := LastEnd(s.ledger.accepted);
    match op
    case Tick(now) =>
      AdvanceFrame(s, now);
      AdvanceInOrder(s, now, last);
    case Detail(e, now) =>
      EventInOrder(s, e, now, last);
    case Aggregate(m, now) =>
      AcceptedMetric(s, m, now);
      MetricInOrder(s, m, now, last);
  }

  lemma AcceptedMetric(s: State, m: Metric, now: nat)
    requires Buffered(s) && EndsAscend(AcceptMetric(s, m, now).ledger.accepted)
    ensures var r := AcceptMetric(s, m, now);
            r.ledger.accepted == s.ledger.accepted ||
            (r.ledger.accepted == s.ledger.accepted + [m] && LastEnd(s.ledger.accepted) <= m.end)
  {
    AdvanceFrame(s, now);
    var t := Advance(s, now);
    var cost := MetricCost(t.active, m);
    FoldFrame(t, cost);
    EvictFrame(FoldUntilFits(t, cost), cost);
    var r, n := AcceptMetric(s, m, now), |s.ledger.accepted|;
    if r.ledger.accepted == s.ledger.accepted + [m] && n > 0 {
      assert r.ledger.accepted[n - 1] == s.ledger.accepted[n - 1] && r.ledger.accepted[n] == m;
    }
  }

  lemma AscendPrefix(a: seq<Metric>, b: seq<Metric>)
    requires a <= b && EndsAscend(b)
    ensures EndsAscend(a)
  {
    assert forall i :: 0 <= i < |a| ==> a[i] == b[i];
  }

  lemma {:induction false} RunInOrder(s: State, ops: seq<Op>)
    requires Inv(s) && EndOrder(s, LastEnd(s.ledger.accepted)) && forall op :: op in ops ==> Legal(op)
    requires EndsAscend(Run(s, ops).ledger.accepted)
    ensures EndOrder(Run(s, ops), LastEnd(Run(s, ops).ledger.accepted))
    decreases |ops|
  {
    hide EndOrder, EndsAscend;
    InvBuffers(s);
    if |ops| > 0 {
      assert ops[0] in ops;
      var t := Step(s, ops[0]);
      StepHolds(s, ops[0]);
      RunLog(t, ops[1..]);
      StepLog(s, ops[0]);
      AscendPrefix(t.ledger.accepted, Run(s, ops).ledger.accepted);
      StepInOrder(s, ops[0]);
      RunInOrder(t, ops[1..]);
    }
  }

  /** All that is old enough in a history: sealed segments, then rollups, then the mutable one. */
  function AgedHistory(s: State, now: nat): seq<Metric> {
    AgedMetrics(s.sealed, now, s.history) + AgedMetrics(s.rollups, now, s.history) +
    if s.rollupActive.Some? && Aged(s.rollupActive.value.end, now, s.history) then s.rollupActive.value.metrics else []
  }

  lemma {:induction false} AgedEnded(gs: seq<Seg>, now: nat, history: nat)
    requires forall g :: g in gs ==> WithinBounds(g) && g.maxNS <= g.end
    ensures forall m :: m in AgedMetrics(gs, now, history) ==> Aged(m.end, now, history)
  {
    if |gs| > 0 {
      assert gs[0] in gs;
      AgedEnded(gs[1..], now, history);
    }
  }

  /** Exactly the segments that end later than `history` ago are kept. */
  lemma {:induction false} UnexpiredMembers(gs: seq<Seg>, now: nat, history: nat)
    ensures forall g :: g in Unexpired(gs, now, history) <==> g in gs && now < g.end + history
  {
    if |gs| > 0 {
      UnexpiredMembers(gs[1..], now, history);
      assert forall g :: g in gs <==> g == gs[0] || g in gs[1..];
    }
  }

  lemma {:induction false} RunKeepsHistory(s: State, ops: seq<Op>)
    requires Buffered(s)
    ensures Run(s, ops).history == s.history
    decreases |ops|
  {
    hide Step;
    if |ops| > 0 {
      StepKeepsHistory(s, ops[0]);
      StepKeepsBuffers(s, ops[0]);
      RunKeepsHistory(Step(s, ops[0]), ops[1..]);
    }
  }

  lemma StepKeepsHistory(s: State, op: Op)
    requires Buffered(s)
    ensures Step(s, op).history == s.history
  {
    AdvanceFrame(s, op.now);
    AdvanceKeepsBuffers(s, op.now);
    var t := Advance(s, op.now);
    match op
    case Tick(_) =>
    case Detail(e, _) => FoldFrame(t, EventCost(t.active, e));
    case Aggregate(m, _) =>
      FoldFrame(t, MetricCost(t.active, m));
      EvictFrame(FoldUntilFits(t, MetricCost(t.active, m)), MetricCost(t.active, m));
  }

  /** After any run whose accepted metrics end in order, an advance records as expired exactly the
      metrics of the sealed segments and rollups whose end is at least `history` old; each of
      those metrics ended at least that long ago, and every other segment passes on to folding. */
  lemma AdvanceExpiresExactly(history: nat, max: nat, interval: nat, started: nat, ops: seq<Op>, now: nat)
    requires SEGMENT_COST <= max && forall op :: op in ops ==> Legal(op)
    requires EndsAscend(Run(New(history, max, interval, started), ops).ledger.accepted)
    requires now >= Run(New(history, max, interval, started), ops).active.start
    ensures var t := Run(New(history, max, interval, started), ops);
            var s := Seal(t, now);
            var r := Expire(s, now);
            Advance(t, now).ledger.expired == t.ledger.expired + AgedHistory(s, now) &&
            (forall m :: m in AgedHistory(s, now) ==> m.end + history <= now) &&
            r.sealed == Unexpired(s.sealed, now, s.history) &&
            r.rollups == Unexpired(s.rollups, now, s.history) &&
            (forall g :: g in r.sealed <==> g in s.sealed && now < g.end + history) &&
            (forall g :: g in r.rollups <==> g in s.rollups && now < g.end + history) &&
            r.rollupActive == (if s.rollupActive.Some? && s.rollupActive.value.end + history <= now
                               then None else s.rollupActive)
  {
    hide EndOrder, Inv, Run, EndsAscend, Unexpired, AgedHistory;
    var s := New(history, max, interval, started);
    NewHolds(history, max, interval, started);
    NewInOrder(history, max, interval, started);
    RunHolds(s, ops);
    RunInOrder(s, ops);
    var t := Run(s, ops);
    AdvanceInOrder(t, now, LastEnd(t.ledger.accepted));
    OrderedRollups(Seal(t, now), LastEnd(t.ledger.accepted));
    SealHolds(t, now);
    ExpireExact(Seal(t, now), now);
    ExpireLedger(Seal(t, now), now);
    AgedHistoryEnded(Seal(t, now), now);
    UnexpiredMembers(Seal(t, now).sealed, now, t.history);
    UnexpiredMembers(Seal(t, now).rollups, now, t.history);
    RunKeepsHistory(s, ops);
    FoldFrame(Expire(Seal(t, now), now), 0);
    EvictFrame(FoldUntilFits(Expire(Seal(t, now), now), 0), 0);
  }

  lemma AgedHistoryEnded(s: State, now: nat)
    requires Inv(s)
    ensures forall m :: m in AgedHistory(s, now) ==> m.end + s.history <= now
  {
    AgedEnded(s.sealed, now, s.history);
    AgedEnded(s.rollups, now, s.history);
  }

  lemma OrderedRollups(s: State, last: nat)
    requires EndOrder(s, last)
    ensures RollupsAscend(s)
  {
  }

  lemma NewInOrder(history: nat, max: nat, interval: nat, now: nat)
    ensures var s := New(history, max, interval, now); EndOrder(s, LastEnd(s.ledger.accepted))
  {
  }
}
