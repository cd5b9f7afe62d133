/** The recorder on shared, in-place updated buffers. Each method carries out the step of
    `RecorderSpec` named in its contract; a snapshot shares the buffers of sealed segments. */
module RecorderBuffers {
  import opened Telemetry
  import opened CaptureModel
  import opened RecorderSpec
  import opened RecorderInvariant
  import opened SnapshotSpec

  /** A retained segment as stored: two buffers with fill counts and the bookkeeping. */
  datatype Backed = Backed(start: nat, end: nat, events: array<Event>, eventCount: nat,
                           metrics: array<Metric>, metricCount: nat, bytes: int, minNS: nat, maxNS: nat)

  ghost predicate Holds(b: Backed, g: Seg)
    reads b.events, b.metrics
  {
    b.start == g.start && b.end == g.end && b.bytes == g.bytes && b.minNS == g.minNS && b.maxNS == g.maxNS &&
    b.eventCount <= b.events.Length == g.eventCap && b.metricCount <= b.metrics.Length == g.metricCap &&
    b.events[..b.eventCount] == g.events && b.metrics[..b.metricCount] == g.metrics
  }

  /** Sealed segments, held in buffers that nothing may write any more. */
  ghost predicate Stored(bs: seq<Backed>, gs: seq<Seg>, buffers: set<object>, mutable: set<object>)
    reads buffers
  {
    |bs| == |gs| &&
    forall i :: 0 <= i < |bs| ==>
      bs[i].events in buffers && bs[i].metrics in buffers &&
      bs[i].events !in mutable && bs[i].metrics !in mutable && Holds(bs[i], gs[i])
  }

  lemma StoredDrop(bs: seq<Backed>, gs: seq<Seg>, buffers: set<object>, mutable: set<object>)
    requires Stored(bs, gs, buffers, mutable) && |bs| > 0
    ensures Stored(bs[1..], gs[1..], buffers, mutable)
  {
  }

  lemma StoredPush(bs: seq<Backed>, gs: seq<Seg>, b: Backed, g: Seg, buffers: set<object>, mutable: set<object>)
    requires Stored(bs, gs, buffers, mutable)
    requires b.events in buffers && b.metrics in buffers && b.events !in mutable && b.metrics !in mutable && Holds(b, g)
    ensures Stored(bs + [b], gs + [g], buffers, mutable)
  {
  }

  /** More buffers, and only new or already writable ones writable. */
  lemma StoredWider(bs: seq<Backed>, gs: seq<Seg>, buffers: set<object>, mutable: set<object>,
                    buffers': set<object>, mutable': set<object>)
    requires Stored(bs, gs, buffers, mutable) && buffers <= buffers'
    requires forall o :: o in buffers && o in mutable' ==> o in mutable
    ensures Stored(bs, gs, buffers', mutable')
  {
  }

  /** A segment's end is not in its buffers. */
  lemma HoldsEnd(b: Backed, g: Seg, end: nat)
    requires Holds(b, g)
    ensures b.start == g.start && Holds(b.(end := end), g.(end := end))
  {
  }

  lemma SealDone(s: State, now: nat)
    requires s.active.start <= now && now - s.active.start >= s.interval
    ensures Seal(s, now) == s.(sealed := s.sealed + [s.active.(end := s.active.start + s.interval)],
                               active := RecorderSpec.Fresh(now), bytes := s.bytes + SEGMENT_COST)
  {
  }

  function Observe(b: Backed, start: nat, end: nat): Backed {
    b.(minNS := if start < b.minNS then start else b.minNS, maxNS := if end > b.maxNS then end else b.maxNS)
  }

  /** One saved segment: slices of buffers, shared or copied. */
  datatype Slice = Slice(start: nat, end: nat, events: array<Event>, eventCount: nat,
                         metrics: array<Metric>, metricCount: nat)

  datatype Selection = Selection(manifest: Manifest, host: Host, segments: seq<Slice>)

  ghost predicate Shows(x: Slice, p: Piece)
    reads x.events, x.metrics
  {
    x.start == p.start && x.end == p.end &&
    x.eventCount <= x.events.Length && x.metricCount <= x.metrics.Length &&
    x.events[..x.eventCount] == p.events && x.metrics[..x.metricCount] == p.metrics
  }

  class Recorder {
    const started: nat
    const interval: nat
    const history: nat
    const max: nat
    var bytes: int
    var rollups: seq<Backed>
    var rollupActive: Option<Backed>
    var bucket: nat
    var sealed: seq<Backed>
    var active: Backed
    var drops: nat
    var evictions: nat
    var aggregateEvictions: nat
    ghost var model: State
    ghost var Buffers: set<object>

    /** The only buffers a later call may write. */
    ghost function Mutable(): set<object>
      reads this
    {
      {active.events as object, active.metrics} +
      (if rollupActive.Some? then {rollupActive.value.metrics} else {})
    }

    ghost predicate Fields()
      reads this
    {
      started == model.started && interval == model.interval && history == model.history && max == model.max &&
      bytes == model.bytes && bucket == model.bucket && drops == model.drops && evictions == model.evictions &&
      aggregateEvictions == model.aggregateEvictions && rollupActive.Some? == model.rollupActive.Some?
    }

    /** All but the contents of the active rollup agrees with `model`, and no sealed segment
        can be written. */
    ghost predicate Intact()
      reads this, Buffers
    {
      this !in Buffers && active.events in Buffers && active.metrics in Buffers && Holds(active, model.active) &&
      (rollupActive.Some? ==>
         rollupActive.value.events in Buffers && rollupActive.value.metrics in Buffers &&
         rollupActive.value.events != active.events && rollupActive.value.metrics != active.metrics) &&
      Stored(rollups, model.rollups, Buffers, Mutable()) &&
      Stored(sealed, model.sealed, Buffers, Mutable())
    }

    /** The buffers hold exactly the segments of `model`. */
    ghost predicate Valid()
      reads this, Buffers
    {
      Fields() && Intact() && (rollupActive.Some? ==> Holds(rollupActive.value, model.rollupActive.value))
    }

    constructor (history: nat, max: nat, interval: nat, now: nat)
      ensures Valid() && fresh(Mutable())
      ensures model == New(history, max, interval, now)
    {
      var es := new Event[0];
      var ms := new Metric[0];
      this.started, this.interval, this.history, this.max := now, interval, history, max;
      rollups, rollupActive, bucket, sealed := [], None, 0, [];
      active := Backed(now, now, es, 0, ms, 0, SEGMENT_COST, now, now);
      bytes, drops, evictions, aggregateEvictions := SEGMENT_COST, 0, 0, 0;
      model := New(history, max, interval, now);
      Buffers := {es as object, ms};
    }

    /** The stored segments agree with the model on number and on what expiry and dropping read. */
    lemma Heads()
      requires Valid()
      ensures |sealed| == |model.sealed| && |rollups| == |model.rollups| &&
              history == model.history && started == model.started
      ensures rollupActive.Some? == model.rollupActive.Some?
      ensures |sealed| > 0 ==> sealed[0].end == model.sealed[0].end && sealed[0].bytes == model.sealed[0].bytes
      ensures |rollups| > 0 ==> rollups[0].end == model.rollups[0].end && rollups[0].bytes == model.rollups[0].bytes
      ensures rollupActive.Some? ==> rollupActive.value.end == model.rollupActive.value.end &&
                                     rollupActive.value.bytes == model.rollupActive.value.bytes
    {
    }

    // ----- dropping -----

    method DropRaw(memory: bool)
      requires Valid() && |sealed| > 0
      modifies this
      ensures Valid() && Buffers == old(Buffers) && Mutable() == old(Mutable())
      ensures model == RecorderSpec.DropRaw(old(model), memory)
      ensures active == old(active) && rollupActive == old(rollupActive) && sealed == old(sealed)[1..]
    {
      hide Stored, Holds;
      Heads();
      StoredDrop(sealed, model.sealed, Buffers, Mutable());
      bytes := bytes - sealed[0].bytes;
      sealed := sealed[1..];
      if memory {
        evictions := evictions + 1;
      }
      model := RecorderSpec.DropRaw(model, memory);
    }

    method DropRollup(memory: bool)
      requires Valid() && HasRollup(model)
      modifies this
      ensures Valid() && Buffers == old(Buffers) && Mutable() <= old(Mutable())
      ensures model == RecorderSpec.DropRollup(old(model), memory) && active == old(active)
    {
      Heads();
      hide Valid;
      if |rollups| > 0 {
        DropFirstRollup(memory);
      } else {
        DropActiveRollup(memory);
      }
    }

    method DropFirstRollup(memory: bool)
      requires Valid() && |rollups| > 0
      modifies this
      ensures Valid() && Buffers == old(Buffers) && Mutable() == old(Mutable())
      ensures HasRollup(old(model)) && model == RecorderSpec.DropRollup(old(model), memory) && active == old(active)
    {
      hide Stored, Holds;
      Heads();
      StoredDrop(rollups, model.rollups, Buffers, Mutable());
      if memory {
        aggregateEvictions := aggregateEvictions + 1;
      }
      bytes := bytes - rollups[0].bytes;
      rollups := rollups[1..];
      model := RecorderSpec.DropRollup(model, memory);
    }

    method DropActiveRollup(memory: bool)
      requires Valid() && |rollups| == 0 && rollupActive.Some?
      modifies this
      ensures Valid() && Buffers == old(Buffers) && Mutable() <= old(Mutable())
      ensures HasRollup(old(model)) && model == RecorderSpec.DropRollup(old(model), memory) && active == old(active)
    {
      hide Stored, Holds;
      Heads();
      ghost var rest: set<object> := {active.events as object, active.metrics};
      StoredWider(rollups, model.rollups, Buffers, Mutable(), Buffers, rest);
      StoredWider(sealed, model.sealed, Buffers, Mutable(), Buffers, rest);
      if memory {
        aggregateEvictions := aggregateEvictions + 1;
      }
      bytes := bytes - rollupActive.value.bytes;
      rollupActive := None;
      model := RecorderSpec.DropRollup(model, memory);
      assert Mutable() == rest;
    }

    // ----- folding -----

    method AddRollupMetric(m: Metric)
      requires Valid() && rollupActive.Some?
      modifies this, rollupActive.value.metrics
      ensures Valid() && rollupActive.Some?
      ensures model == AddMetrics(old(model), [m])
      ensures rollupActive.value.metrics == old(rollupActive.value.metrics) || fresh(rollupActive.value.metrics)
      ensures active == old(active)
    {
      ghost var g := model.rollupActive.value;
      hide Stored;
      var i := FindContinued(rollupActive.value, g, m);
      if i < rollupActive.value.metricCount {
        var prev := rollupActive.value.metrics[i];
        StoreEntry(i, prev.(end := m.end, tally := Plus(prev.tally, m.tally)));
        FinishEntry(rollupActive.value.metricCount, m, g.metrics[i := Merge(g.metrics[i], m)]);
      } else {
        AppendEntry(m);
      }
    }

    /** No entry continues `m`: append it, doubling a full buffer. */
    method AppendEntry(m: Metric)
      requires Valid() && rollupActive.Some?
      requires MergeIndex(model.rollupActive.value.metrics, m) == |model.rollupActive.value.metrics|
      modifies this, rollupActive.value.metrics
      ensures Valid() && rollupActive.Some?
      ensures model == AddMetrics(old(model), [m])
      ensures rollupActive.value.metrics == old(rollupActive.value.metrics) || fresh(rollupActive.value.metrics)
      ensures active == old(active)
    {
      ghost var g := model.rollupActive.value;
      hide Stored;
      if rollupActive.value.metricCount == rollupActive.value.metrics.Length {
        GrowRollup();
      }
      StoreEntry(rollupActive.value.metricCount, m);
      FinishEntry(rollupActive.value.metricCount + 1, m, g.metrics + [m]);
    }

    /** Write one slot of the active rollup. */
    method StoreEntry(i: nat, x: Metric)
      requires Intact() && rollupActive.Some? && i < rollupActive.value.metrics.Length
      modifies rollupActive.value.metrics
      ensures Intact() && rollupActive.value.metrics[..] == old(rollupActive.value.metrics[..])[i := x]
    {
      rollupActive.value.metrics[i] := x;
      assert forall k :: 0 <= k < |rollups| ==> Holds(rollups[k], model.rollups[k]) by {
        assert forall k :: 0 <= k < |rollups| ==> old(Holds(rollups[k], model.rollups[k]));
      }
      assert forall k :: 0 <= k < |sealed| ==> Holds(sealed[k], model.sealed[k]) by {
        assert forall k :: 0 <= k < |sealed| ==> old(Holds(sealed[k], model.sealed[k]));
      }
    }

    /** Move the active rollup to a buffer of twice the capacity and charge for it. */
    method GrowRollup()
      requires Intact() && rollupActive.Some?
      requires rollupActive.value.metricCount == rollupActive.value.metrics.Length
      modifies this
      ensures Intact() && active == old(active) && model == old(model)
      ensures rollupActive.Some? && fresh(rollupActive.value.metrics)
      ensures var a, b := old(rollupActive.value), rollupActive.value;
              b.metrics.Length == Max(4, 2 * a.metrics.Length) &&
              b == a.(metrics := b.metrics, bytes := a.bytes + MetricBytes(b.metrics.Length - a.metrics.Length)) &&
              b.metrics[..a.metricCount] == a.metrics[..a.metricCount] &&
              bytes == old(bytes) + b.bytes - a.bytes
      ensures unchanged(this`bucket, this`drops, this`evictions, this`aggregateEvictions)
    {
      var a := rollupActive.value;
      var capacity := Max(4, a.metrics.Length * 2);
      var next := CopyOf(a.metrics, a.metricCount, capacity);
      var cost := MetricBytes(capacity - a.metrics.Length);
      ghost var wider := Buffers + {next};
      ghost var writable: set<object> := {active.events as object, active.metrics, next};
      StoredWider(rollups, model.rollups, Buffers, Mutable(), wider, writable);
      StoredWider(sealed, model.sealed, Buffers, Mutable(), wider, writable);
      hide Stored, Holds;
      rollupActive := Some(a.(metrics := next, bytes := a.bytes + cost));
      bytes := bytes + cost;
      Buffers := wider;
    }

    /** Record the new bounds and count of the active rollup, whose entries are now `ms`. */
    method FinishEntry(count: nat, m: Metric, ghost ms: seq<Metric>)
      requires Intact() && rollupActive.Some? && model.rollupActive.Some?
      requires var a, r := rollupActive.value, AddToRollup(model.rollupActive.value, m);
               ms == r.metrics && count <= a.metrics.Length == r.metricCap && a.metrics[..count] == ms &&
               a.eventCount <= a.events.Length == r.eventCap && a.events[..a.eventCount] == r.events &&
               a.bytes == r.bytes && bytes == model.bytes + r.bytes - model.rollupActive.value.bytes &&
               var g := model.rollupActive.value;
               a.start == g.start && a.end == g.end && a.minNS == g.minNS && a.maxNS == g.maxNS
      requires started == model.started && interval == model.interval && history == model.history &&
               max == model.max && bucket == model.bucket && drops == model.drops &&
               evictions == model.evictions && aggregateEvictions == model.aggregateEvictions
      modifies this
      ensures Valid() && Buffers == old(Buffers) && active == old(active) && rollupActive.Some?
      ensures rollupActive.value.metrics == old(rollupActive.value.metrics)
      ensures model == AddMetrics(old(model), [m])
    {
      hide Stored;
      AddMetricsOne(model, m);
      var a := Observe(rollupActive.value.(metricCount := count), m.start, m.end);
      rollupActive := Some(a.(start := Min(a.start, m.start), end := Max(a.end, m.end)));
      model := AddMetrics(model, [m]);
      assert Mutable() == old(Mutable());
    }

    /** The first entry of the rollup that `m` continues. */
    method FindContinued(a: Backed, ghost g: Seg, m: Metric) returns (i: nat)
      requires a.metricCount <= a.metrics.Length && a.metrics[..a.metricCount] == g.metrics
      ensures i == MergeIndex(g.metrics, m)
    {
      i := 0;
      while i < a.metricCount && !(a.metrics[i].family == m.family && a.metrics[i].end == m.start)
        invariant i <= a.metricCount
        invariant forall k :: 0 <= k < i ==> !Continues(g.metrics[k], m)
      {
        i := i + 1;
      }
    }

    method CompactOldest()
      requires Valid() && |sealed| > 0
      modifies this, Mutable()
      ensures Valid() && fresh(Mutable() - old(Mutable()))
      ensures model == RecorderSpec.CompactOldest(old(model)) && active == old(active)
    {
      var oldest := sealed[0];
      ghost var g := model.sealed[0];
      assert Holds(oldest, g) && oldest.metrics !in Mutable();
      DropRaw(true);
      if oldest.metricCount > 0 {
        OpenRollup(oldest, g);
        FoldMetrics(oldest, g.metrics);
      }
    }

    /** Seal the active rollup when the minute changes and start a new one when there is none. */
    method OpenRollup(oldest: Backed, ghost g: Seg)
      requires Valid() && Holds(oldest, g) && |g.metrics| > 0 && oldest.metrics !in Mutable()
      modifies this
      ensures Valid() && fresh(Mutable() - old(Mutable()))
      ensures model == RecorderSpec.OpenRollup(old(model), g) && rollupActive.Some?
      ensures active == old(active) && oldest.metrics !in Mutable()
    {
      var minute := Minute(oldest.start);
      if rollupActive.Some? && minute != bucket {
        SealRollup();
      }
      if rollupActive.None? {
        StartRollup(oldest.metrics[0], minute);
        assert oldest.metrics[0] == g.metrics[0];
      }
    }

    method SealRollup()
      requires Valid() && rollupActive.Some?
      modifies this
      ensures Valid() && Buffers == old(Buffers) && Mutable() <= old(Mutable())
      ensures active == old(active) && rollupActive.None? && bucket == old(bucket)
      ensures model == old(model).(rollups := old(model).rollups + [old(model).rollupActive.value],
          rollupActive := None)
    {
      ghost var rest: set<object> := {active.events as object, active.metrics};
      StoredWider(rollups, model.rollups, Buffers, Mutable(), Buffers, rest);
      StoredWider(sealed, model.sealed, Buffers, Mutable(), Buffers, rest);
      StoredPush(rollups, model.rollups, rollupActive.value, model.rollupActive.value, Buffers, rest);
      rollups := rollups + [rollupActive.value];
      rollupActive := None;
      model := model.(rollups := model.rollups + [model.rollupActive.value], rollupActive := None);
    }

    method StartRollup(first: Metric, minute: nat)
      requires Valid() && rollupActive.None?
      modifies this
      ensures Valid() && fresh(Mutable() - old(Mutable()))
      ensures active == old(active) && rollupActive.Some?
      ensures model == old(model).(bucket := minute, rollupActive := Some(NewRollup(first)),
                                   bytes := old(model).bytes + SEGMENT_COST)
    {
      var a := NewBacked(first.start, first.end, first.end);
      ghost var wider := Buffers + {a.events as object, a.metrics};
      ghost var writable: set<object> := {active.events as object, active.metrics, a.metrics};
      StoredWider(rollups, model.rollups, Buffers, Mutable(), wider, writable);
      StoredWider(sealed, model.sealed, Buffers, Mutable(), wider, writable);
      hide Stored, Holds;
      bucket := minute;
      rollupActive := Some(a);
      bytes := bytes + SEGMENT_COST;
      Buffers := wider;
      model := model.(bucket := minute, rollupActive := Some(NewRollup(first)), bytes := model.bytes + SEGMENT_COST);
    }

    method FoldMetrics(oldest: Backed, ghost ms: seq<Metric>)
      requires Valid() && rollupActive.Some? && oldest.metrics !in Mutable()
      requires oldest.metricCount <= oldest.metrics.Length && oldest.metrics[..oldest.metricCount] == ms
      modifies this, rollupActive.value.metrics
      ensures Valid() && fresh(Mutable() - old(Mutable()))
      ensures model == AddMetrics(old(model), ms) && active == old(active)
    {
      ghost var u := model;
      assert ms[0..] == ms;
      for i := 0 to oldest.metricCount
        invariant Valid() && rollupActive.Some? && active == old(active)
        invariant rollupActive.value.metrics == old(rollupActive.value.metrics) || fresh(rollupActive.value.metrics)
        invariant oldest.metrics[..oldest.metricCount] == ms
        invariant AddMetrics(model, ms[i..]) == AddMetrics(u, ms)
      {
        assert oldest.metrics[i] == ms[i];
        AddMetricsStep(model, ms[i], ms[i + 1..]);
        assert ms[i..] == [ms[i]] + ms[i + 1..];
        AddRollupMetric(oldest.metrics[i]);
      }
      assert ms[oldest.metricCount..] == [];
    }

    // ----- advancing -----

    method SealDue(now: nat)
      requires Valid() && active.start <= now
      modifies this
      ensures Valid() && fresh(Mutable() - old(Mutable()))
      ensures model == Seal(old(model), now)
    {
      if now - active.start >= interval {
        SealActive(now);
      } else {
        active := active.(end := now);
        model := Seal(model, now);
      }
    }

    method SealActive(now: nat)
      requires Valid() && active.start <= now && now - active.start >= interval
      modifies this
      ensures Valid() && fresh(Mutable() - old(Mutable()))
      ensures model == Seal(old(model), now)
    {
      var next := NewBacked(now, now, now);
      InstallActive(next, now);
    }

    method InstallActive(next: Backed, now: nat)
      requires Valid() && active.start <= now && now - active.start >= interval
      requires Holds(next, Fresh(now)) && next.events !in Buffers && next.metrics !in Buffers
      modifies this
      ensures Valid() && Buffers == old(Buffers) + {next.events as object, next.metrics}
      ensures active == next && rollupActive == old(rollupActive) && model == Seal(old(model), now)
    {
      hide Stored, Holds, Seal, Fresh;
      var done := active.(end := active.start + interval);
      ghost var wider := Buffers + {next.events as object, next.metrics};
      ghost var writable := {next.events as object, next.metrics} +
                            if rollupActive.Some? then {rollupActive.value.metrics as object} else {};
      HoldsEnd(active, model.active, done.end);
      SealDone(model, now);
      StoredWider(rollups, model.rollups, Buffers, Mutable(), wider, writable);
      StoredWider(sealed, model.sealed, Buffers, Mutable(), wider, writable);
      StoredPush(sealed, model.sealed, done, model.active.(end := done.end), wider, writable);
      ghost var s := Seal(model, now);
      sealed := sealed + [done];
      active := next;
      bytes := bytes + SEGMENT_COST;
      Buffers := wider;
      model := s;
    }

    method Expire(now: nat)
      requires Valid()
      modifies this
      ensures Valid() && Buffers == old(Buffers) && Mutable() <= old(Mutable())
      ensures model == RecorderSpec.Expire(old(model), now)
    {
      ExpireSegments(now);
      ExpireSealedRollups(now);
      Heads();
      hide Valid;
      if rollupActive.Some? && now >= rollupActive.value.end && now - rollupActive.value.end >= history {
        DropRollup(false);
      }
    }

    method ExpireSegments(now: nat)
      requires Valid()
      modifies this
      ensures Valid() && Buffers == old(Buffers) && Mutable() <= old(Mutable())
      ensures model == RecorderSpec.ExpireSealed(old(model), now)
    {
      Heads();
      hide Valid;
      while |sealed| > 0 && now >= sealed[0].end && now - sealed[0].end >= history
        invariant Valid() && Buffers == old(Buffers) && Mutable() <= old(Mutable())
        invariant ExpireSealed(model, now) == ExpireSealed(old(model), now)
        invariant |sealed| == |model.sealed| && (|sealed| > 0 ==> sealed[0].end == model.sealed[0].end)
        invariant history == model.history
        decreases |sealed|
      {
        DropRaw(false);
        Heads();
      }
    }

    method ExpireSealedRollups(now: nat)
      requires Valid()
      modifies this
      ensures Valid() && Buffers == old(Buffers) && Mutable() <= old(Mutable())
      ensures model == RecorderSpec.ExpireRollups(old(model), now)
    {
      Heads();
      hide Valid;
      while |rollups| > 0 && now >= rollups[0].end && now - rollups[0].end >= history
        invariant Valid() && Buffers == old(Buffers) && Mutable() <= old(Mutable())
        invariant ExpireRollups(model, now) == ExpireRollups(old(model), now)
        invariant |rollups| == |model.rollups| && (|rollups| > 0 ==> rollups[0].end == model.rollups[0].end)
        invariant history == model.history
        decreases |model.rollups|
      {
        DropRollup(false);
        Heads();
      }
    }

    method FoldUntilFits(cost: nat)
      requires Valid()
      modifies this, Mutable()
      ensures Valid() && fresh(Mutable() - old(Mutable()))
      ensures model == RecorderSpec.FoldUntilFits(old(model), cost) && active == old(active)
    {
      hide Stored, Holds;
      Heads();
      while bytes + cost > max && |sealed| > 0
        invariant Valid() && fresh(Mutable() - old(Mutable()))
        invariant RecorderSpec.FoldUntilFits(model, cost) == RecorderSpec.FoldUntilFits(old(model), cost)
        invariant active == old(active) && |sealed| == |model.sealed|
        decreases |model.sealed|
      {
        CompactOldest();
        Heads();
      }
    }

    method EvictUntilFits(cost: nat)
      requires Valid()
      modifies this
      ensures Valid() && Buffers == old(Buffers) && Mutable() <= old(Mutable())
      ensures model == RecorderSpec.EvictUntilFits(old(model), cost) && active == old(active)
    {
      hide Stored, Holds;
      Heads();
      while bytes + cost > max && (|rollups| > 0 || rollupActive.Some?)
        invariant Valid() && Buffers == old(Buffers) && Mutable() <= old(Mutable())
        invariant RecorderSpec.EvictUntilFits(model, cost) == RecorderSpec.EvictUntilFits(old(model), cost)
        invariant active == old(active) && |rollups| == |model.rollups|
        decreases RollupCount(model)
      {
        DropRollup(true);
        Heads();
      }
    }

    method Advance(now: nat)
      requires Valid()
      modifies this, Mutable()
      ensures Valid() && fresh(Mutable() - old(Mutable()))
      ensures model == RecorderSpec.Advance(old(model), now)
    {
      hide Stored;
      if now < active.start {
        return;
      }
      SealDue(now);
      Expire(now);
      FoldUntilFits(0);
      EvictUntilFits(0);
    }

    method Room(cost: nat, metric: bool) returns (fits: bool)
      requires Valid()
      modifies this, Mutable()
      ensures Valid() && fresh(Mutable() - old(Mutable()))
      ensures model == RecorderSpec.Room(old(model), cost, metric) && active == old(active)
      ensures fits <==> model.bytes + cost <= model.max
    {
      hide Stored, Holds;
      FoldUntilFits(cost);
      if metric {
        EvictUntilFits(cost);
      }
      fits := bytes + cost <= max;
    }

    // ----- accepting -----

    method Reject()
      requires Valid()
      modifies this
      ensures Valid() && Buffers == old(Buffers) && Mutable() == old(Mutable())
      ensures model == Drop(old(model))
    {
      hide Stored, Holds;
      drops := drops + 1;
      model := Drop(model);
    }

    /** One call of a run. */
    method Apply(op: Op)
      requires Valid()
      modifies this, Mutable()
      ensures Valid() && fresh(Mutable() - old(Mutable()))
      ensures Buffered(old(model)) && Buffered(model) && model == Step(old(model), op)
    {
      ActiveFacts();
      StepKeepsBuffers(model, op);
      match op
      case Tick(at) =>
        Advance(at);
      case Detail(e, at) =>
        var _ := Event(e, at);
      case Aggregate(m, at) =>
        var _ := Metric(m, at);
    }

    /** A whole run. */
    method ApplyAll(ops: seq<Op>)
      requires Valid()
      modifies this, Mutable()
      ensures Valid() && fresh(Mutable() - old(Mutable()))
      ensures Buffered(old(model)) && model == Run(old(model), ops)
    {
      ActiveFacts();
      hide Stored, Holds, Step;
      assert ops[0..] == ops;
      for i := 0 to |ops|
        invariant Valid() && fresh(Mutable() - old(Mutable()))
        invariant Buffered(model) && Run(model, ops[i..]) == Run(old(model), ops)
      {
        assert ops[i..][0] == ops[i] && ops[i..][1..] == ops[i + 1..];
        Apply(ops[i]);
      }
    }

    /** What acceptance reads of the active segment and the limits. */
    lemma ActiveFacts()
      requires Valid()
      ensures active.eventCount == |model.active.events| && active.events.Length == model.active.eventCap
      ensures active.metricCount == |model.active.metrics| && active.metrics.Length == model.active.metricCap
      ensures history == model.history && Buffered(model)
      ensures active.events in Mutable() && active.metrics in Mutable()
    {
    }

    method Event(e: Event, now: nat) returns (accepted: bool)
      requires Valid()
      modifies this, Mutable()
      ensures Valid() && fresh(Mutable() - old(Mutable()))
      ensures Buffered(old(model)) && model == AcceptEvent(old(model), e, now)
      ensures accepted <==> model.drops == old(model).drops
    {
      hide Valid, Fields, Intact, Stored, Holds, Buffered, RecorderSpec.Advance, RoomForEvent, AddEvent, EventCost,
        AcceptEvent, Drop;
      ActiveFacts();
      EventCases(model, e, now);
      Advance(now);
      ActiveFacts();
      if e.mono > now || now - e.mono > history {
        Reject();
        accepted := false;
      } else {
        accepted := AdmitEvent(e);
      }
    }

    /** What the event costs, and that making room for it leaves the active segment alone. */
    lemma EventPlan(e: Event)
      requires Valid()
      ensures Buffered(model) && Buffered(RoomForEvent(model, e))
      ensures var cost := EventCost(model.active, e);
              var newCap := Grown(active.eventCount, active.events.Length, FIRST_EVENTS);
              cost == StringCost(e) + EventBytes(newCap - active.events.Length) >= 0 &&
              RoomForEvent(model, e) == RecorderSpec.Room(model, cost, false) &&
              RoomForEvent(model, e).active == model.active
    {
      ActiveFacts();
      hide Valid;
      RoomFrame(model, EventCost(model.active, e), false);
      CostOfEvent(model.active, e);
    }

    lemma MetricPlan(m: Metric)
      requires Valid()
      ensures Buffered(model) && Buffered(RoomForMetric(model, m))
      ensures var cost := MetricCost(model.active, m);
              var newCap := Grown(active.metricCount, active.metrics.Length, FIRST_METRICS);
              cost == |m.family| + MetricBytes(newCap - active.metrics.Length) >= 0 &&
              RoomForMetric(model, m) == RecorderSpec.Room(model, cost, true) &&
              RoomForMetric(model, m).active == model.active
    {
      ActiveFacts();
      hide Valid;
      RoomFrame(model, MetricCost(model.active, m), true);
      CostOfMetric(model.active, m);
    }

    /** Make room for an event and append it if there is any. */
    method AdmitEvent(e: Event) returns (fits: bool)
      requires Valid()
      modifies this, Mutable()
      ensures Valid() && fresh(Mutable() - old(Mutable()))
      ensures Buffered(old(model)) && Buffered(RoomForEvent(old(model), e))
      ensures var u := RoomForEvent(old(model), e);
              (fits <==> u.bytes + EventCost(old(model).active, e) <= u.max) &&
              model == if fits then AddEvent(u, e) else Drop(u)
    {
      hide Valid, Fields, Intact, Stored, Holds, Buffered, RecorderSpec.Room, RoomForEvent, AddEvent, EventCost, Drop,
        Grown;
      ActiveFacts();
      EventPlan(e);
      var newCap := Grown(active.eventCount, active.events.Length, FIRST_EVENTS);
      var cost := StringCost(e) + EventBytes(newCap - active.events.Length);
      fits := Room(cost, false);
      if fits {
        PushEvent(e, cost);
      } else {
        Reject();
      }
    }

    method Metric(m: Metric, now: nat) returns (accepted: bool)
      requires Valid()
      modifies this, Mutable()
      ensures Valid() && fresh(Mutable() - old(Mutable()))
      ensures Buffered(old(model)) && model == AcceptMetric(old(model), m, now)
      ensures accepted <==> model.drops == old(model).drops
    {
      ActiveFacts();
      MetricCases(model, m, now);
      hide *;
      Advance(now);
      accepted := AdmitMetric(m);
    }

    /** Make room for a metric, evicting rollups if need be, and append it if there is any. */
    method AdmitMetric(m: Metric) returns (fits: bool)
      requires Valid()
      modifies this, Mutable()
      ensures Valid() && fresh(Mutable() - old(Mutable()))
      ensures Buffered(old(model)) && Buffered(RoomForMetric(old(model), m))
      ensures var u := RoomForMetric(old(model), m);
              (fits <==> u.bytes + MetricCost(old(model).active, m) <= u.max) &&
              model == if fits then AddMetric(u, m) else Drop(u)
    {
      hide Valid, Fields, Intact, Stored, Holds, Buffered, RecorderSpec.Room, RoomForMetric, AddMetric, MetricCost,
        Drop, Grown;
      ActiveFacts();
      MetricPlan(m);
      var newCap := Grown(active.metricCount, active.metrics.Length, FIRST_METRICS);
      var cost := |m.family| + MetricBytes(newCap - active.metrics.Length);
      fits := Room(cost, true);
      if fits {
        PushMetric(m, cost);
      } else {
        Reject();
      }
    }

    method PushEvent(e: Event, cost: nat)
      requires Valid() && cost == EventCost(model.active, e)
      modifies this, active.events
      ensures Valid() && fresh(Mutable() - old(Mutable()))
      ensures Buffered(old(model)) && model == AddEvent(old(model), e)
    {
      ActiveFacts();
      var es := active.events;
      if active.eventCount == es.Length {
        es := CopyOf(es, active.eventCount, Grown(active.eventCount, active.events.Length, FIRST_EVENTS));
      }
      WriteActive(es, active.eventCount, e, active.metrics);
      var a := Observe(active.(events := es, eventCount := active.eventCount + 1), e.mono, e.mono);
      a := a.(bytes := a.bytes + cost);
      ReplaceActive(a, cost, AddEvent(model, e));
    }

    method PushMetric(m: Metric, cost: nat)
      requires Valid() && cost == MetricCost(model.active, m)
      modifies this, active.metrics
      ensures Valid() && fresh(Mutable() - old(Mutable()))
      ensures Buffered(old(model)) && model == AddMetric(old(model), m)
    {
      ActiveFacts();
      var ms := active.metrics;
      if active.metricCount == ms.Length {
        ms := CopyOf(ms, active.metricCount, Grown(active.metricCount, active.metrics.Length, FIRST_METRICS));
      }
      WriteActive(ms, active.metricCount, m, active.events);
      var a := Observe(active.(metrics := ms, metricCount := active.metricCount + 1), m.start, m.end);
      a := a.(bytes := a.bytes + cost);
      ReplaceActive(a, cost, AddMetric(model, m));
    }

    /** All but the contents of the active segment agrees with `model`. */
    ghost predicate Others()
      reads this, Buffers
    {
      this !in Buffers && Fields() && active.events in Buffers && active.metrics in Buffers &&
      (rollupActive.Some? ==>
         rollupActive.value.events in Buffers && rollupActive.value.metrics in Buffers &&
         rollupActive.value.events != active.events && rollupActive.value.metrics != active.metrics &&
         Holds(rollupActive.value, model.rollupActive.value)) &&
      Stored(rollups, model.rollups, Buffers, Mutable()) &&
      Stored(sealed, model.sealed, Buffers, Mutable())
    }

    /** Write one slot of a buffer that is, or is about to become, the active segment's. */
    method WriteActive<T, U>(buffer: array<T>, i: nat, x: T, other: array<U>)
      requires Others() && i < buffer.Length
      requires buffer as object == active.events || buffer as object == active.metrics || buffer !in Buffers
      requires buffer as object != other
      modifies buffer
      ensures Others() && buffer[..] == old(buffer[..])[i := x]
    {
      buffer[i] := x;
    }

    /** Install the updated active segment and its charge. */
    method ReplaceActive(a: Backed, cost: nat, ghost s: State)
      requires Others() && Holds(a, s.active)
      requires s == model.(active := s.active, bytes := model.bytes + cost, ledger := s.ledger)
      requires a.events == active.events || a.events !in Buffers
      requires a.metrics == active.metrics || a.metrics !in Buffers
      modifies this
      ensures Valid() && model == s && Buffers == old(Buffers) + {a.events as object, a.metrics}
      ensures active == a && rollupActive == old(rollupActive)
    {
      hide Stored, Holds;
      ghost var wider := Buffers + {a.events as object, a.metrics};
      ghost var writable := {a.events as object, a.metrics} +
                            if rollupActive.Some? then {rollupActive.value.metrics as object} else {};
      StoredWider(rollups, model.rollups, Buffers, Mutable(), wider, writable);
      StoredWider(sealed, model.sealed, Buffers, Mutable(), wider, writable);
      active := a;
      bytes := bytes + cost;
      Buffers := wider;
      model := s;
    }

    // ----- snapshots -----

    method RetainedFrom() returns (from: nat)
      requires Valid() && Inv(model)
      ensures from == RecorderSpec.RetainedFrom(model)
    {
      var detailFrom := active.start;
      if |sealed| > 0 {
        detailFrom := sealed[0].start;
      }
      from := detailFrom;
      if |rollups| > 0 {
        from := Min(from, rollups[0].minNS);
      } else if rollupActive.Some? {
        from := Min(from, rollupActive.value.minNS);
      }
    }

    /** The clamped start, widened over complete rollup intervals that cross it; sealed
        rollups whose extreme timestamps rule a crossing out are not searched. */
    method ActualStart(boundary: nat, now: nat) returns (actual: nat)
      requires Valid() && Inv(model)
      ensures actual == Earliest(RollupMetrics(model), boundary, now)
    {
      actual := boundary;
      RollupFacts();
      hide Valid, Inv, Earliest, MetricsOf, WithinBounds, Stored, Holds;
      NoneEarlier(model, boundary, now);
      for i := 0 to |rollups|
        invariant actual == Earliest(MetricsOf(model.rollups[..i]), boundary, now)
      {
        assert Holds(rollups[i], model.rollups[i]) && WithinBounds(model.rollups[i]);
        EarliestNext(model.rollups, i, boundary, now);
        actual := IncludeRollup(rollups[i], model.rollups[i], boundary, now, actual);
      }
      assert model.rollups[..|rollups|] == model.rollups;
      if rollupActive.Some? {
        EarliestConcat(MetricsOf(model.rollups), model.rollupActive.value.metrics, boundary, now);
        actual := IncludeBoundary(rollupActive.value, model.rollupActive.value, boundary, now, actual);
      }
    }

    /** The first sealed segment that ends at or after `actual`, by bisection. */
    method FirstEnding(actual: nat) returns (first: nat)
      requires Valid() && Inv(model)
      ensures first <= |sealed| == |model.sealed|
      ensures forall k :: 0 <= k < first ==> model.sealed[k].end < actual
      ensures forall k :: first <= k < |sealed| ==> model.sealed[k].end >= actual
    {
      assert forall k :: 0 <= k < |sealed| ==> Holds(sealed[k], model.sealed[k]);
      SealedEnds(model);
      first := 0;
      var hi := |sealed|;
      while first < hi
        invariant 0 <= first <= hi <= |sealed|
        invariant forall k :: 0 <= k < first ==> model.sealed[k].end < actual
        invariant forall k :: hi <= k < |sealed| ==> model.sealed[k].end >= actual
      {
        var mid := (first + hi) / 2;
        if sealed[mid].end < actual {
          first := mid + 1;
        } else {
          hi := mid;
        }
      }
    }

    method SelectRollups(actual: nat, eventStart: nat, now: nat) returns (xs: seq<Slice>, until: nat)
      requires Valid() && Inv(model) && actual <= eventStart
      ensures AllShow(xs, Pieces(Rollups(model), actual, eventStart, now))
      ensures Arrays(xs) !! Mutable()
      ensures until == LatestEnd(PieceMetrics(Pieces(Rollups(model), actual, eventStart, now)))
    {
      hide *;
      RollupFacts();
      RollupsOf(model);
      xs, until := [], 0;
      NothingShows(Mutable());
      for i := 0 to |rollups|
        invariant AllShow(xs, Pieces(model.rollups[..i], actual, eventStart, now))
        invariant Arrays(xs) !! Mutable()
        invariant until == LatestEnd(PieceMetrics(Pieces(model.rollups[..i], actual, eventStart, now)))
        invariant Valid()
      {
        RollupFacts();
        ghost var g := model.rollups[i];
        assert model.rollups[..i + 1] == model.rollups[..i] + [g];
        PiecesAppend(model.rollups[..i], g, actual, eventStart, now);
        xs, until := SelectAndMark(xs, Pieces(model.rollups[..i], actual, eventStart, now), until,
                                   rollups[i], g, true, actual, eventStart, now, Mutable());
      }
      assert model.rollups[..|rollups|] == model.rollups;
      RollupFacts();
      if rollupActive.Some? {
        ghost var g := model.rollupActive.value;
        PiecesAppend(model.rollups, g, actual, eventStart, now);
        xs, until := SelectAndMark(xs, Pieces(model.rollups, actual, eventStart, now), until,
                                   rollupActive.value, g, false, actual, eventStart, now, Mutable());
      }
    }

    lemma RollupFacts()
      requires Valid() && Inv(model)
      ensures |rollups| == |model.rollups| && rollupActive.Some? == model.rollupActive.Some?
      ensures forall i :: 0 <= i < |rollups| ==>
                Holds(rollups[i], model.rollups[i]) && WithinBounds(model.rollups[i]) &&
                rollups[i].events !in Mutable() && rollups[i].metrics !in Mutable()
      ensures rollupActive.Some? ==>
                Holds(rollupActive.value, model.rollupActive.value) && WithinBounds(model.rollupActive.value)
    {
    }

    lemma RawFacts()
      requires Valid() && Inv(model)
      ensures |sealed| == |model.sealed| && Holds(active, model.active) && WithinBounds(model.active)
      ensures forall i :: 0 <= i < |sealed| ==>
                Holds(sealed[i], model.sealed[i]) && WithinBounds(model.sealed[i]) &&
                sealed[i].events !in Mutable() && sealed[i].metrics !in Mutable()
    {
    }

    method SelectRaw(actual: nat, eventStart: nat, now: nat) returns (xs: seq<Slice>)
      requires Valid() && Inv(model) && actual <= eventStart
      ensures AllShow(xs, Pieces(RawSegments(model), actual, eventStart, now))
      ensures Arrays(xs) !! Mutable()
    {
      hide *;
      RawFacts();
      RawOf(model);
      var first := FirstEnding(actual);
      xs := [];
      NothingShows(Mutable());
      EarlierSealedSelectNothing(model, first, actual, eventStart, now);
      for i := first to |sealed|
        invariant AllShow(xs, Pieces(model.sealed[..i], actual, eventStart, now))
        invariant Arrays(xs) !! Mutable() && Valid()
      {
        RawFacts();
        ghost var g := model.sealed[i];
        assert model.sealed[..i + 1] == model.sealed[..i] + [g];
        PiecesAppend(model.sealed[..i], g, actual, eventStart, now);
        xs := SelectInto(xs, Pieces(model.sealed[..i], actual, eventStart, now),
                         sealed[i], g, true, actual, eventStart, now, Mutable());
      }
      assert model.sealed[..|sealed|] == model.sealed;
      RawFacts();
      PiecesAppend(model.sealed, model.active, actual, eventStart, now);
      xs := SelectInto(xs, Pieces(model.sealed, actual, eventStart, now),
                       active, model.active, false, actual, eventStart, now, Mutable());
    }

    /** The capture of a window: exactly the plain filter of the history, in buffers that no
        later call can write. */
    method SnapshotWindow(start: nat, now: nat, host: Host) returns (c: Selection)
      requires Valid() && Inv(model)
      ensures var spec := SnapshotSpec.SnapshotWindow(model, start, now, host);
              c.manifest == spec.manifest && c.host == spec.host && AllShow(c.segments, spec.segments)
      ensures Arrays(c.segments) !! Mutable()
    {
      hide AllShow, Shows, Valid, Inv, Mutable, Pieces, LatestEnd, PieceMetrics, RollupMetrics;
      var from := RetainedFrom();
      Heads();
      var boundary := start;
      if boundary < from {
        boundary := Min(from, now);
      }
      var actual := ActualStart(boundary, now);
      var eventStart := Max(start, actual);
      var xs, until := SelectRollups(actual, eventStart, now);
      var ys := SelectRaw(actual, eventStart, now);
      PiecesConcat(Rollups(model), RawSegments(model), actual, eventStart, now);
      ShowsConcat(xs, Pieces(Rollups(model), actual, eventStart, now),
                  ys, Pieces(RawSegments(model), actual, eventStart, now), Mutable());
      c := Selection(Manifest(FORMAT_VERSION, actual, now, start, started, until, None), host, xs + ys);
    }

    /** A manual snapshot of the last `last` nanoseconds. */
    method Snapshot(last: nat, now: nat, host: Host) returns (c: Selection)
      requires Valid() && Inv(model)
      modifies this, Mutable()
      ensures Valid() && fresh(Mutable() - old(Mutable()))
      ensures model == RecorderSpec.Advance(old(model), now)
      ensures var spec := SnapshotSpec.SnapshotWindow(model, Max(now - last, 0), now, host);
              c.manifest == spec.manifest && c.host == spec.host && AllShow(c.segments, spec.segments)
      ensures Arrays(c.segments) !! Mutable()
    {
      hide AllShow, Shows, Inv, Valid, RecorderSpec.Advance, SnapshotSpec.SnapshotWindow, Arrays;
      AdvanceHolds(model, now);
      Advance(now);
      var start := 0;
      if last < now {
        start := now - last;
      }
      c := SnapshotWindow(start, now, host);
    }
  }

  // ----- selection -----

  ghost function Arrays(xs: seq<Slice>): set<object> {
    (set x | x in xs :: x.events as object) + (set x | x in xs :: x.metrics as object)
  }

  ghost predicate AllShow(xs: seq<Slice>, ps: seq<Piece>)
    reads Arrays(xs)
  {
    |xs| == |ps| && forall i :: 0 <= i < |xs| ==> Shows(xs[i], ps[i])
  }

  lemma {:induction false} EarliestConcat(a: seq<Metric>, b: seq<Metric>, boundary: nat, now: nat)
    ensures Earliest(a + b, boundary, now) == Min(Earliest(a, boundary, now), Earliest(b, boundary, now))
  {
    if |b| == 0 {
      assert a + b == a;
    } else {
      assert (a + b)[..|a + b| - 1] == a + b[..|b| - 1];
      EarliestConcat(a, b[..|b| - 1], boundary, now);
    }
  }

  lemma NoneEarlier(s: State, boundary: nat, now: nat)
    ensures Earliest(MetricsOf(s.rollups[..0]), boundary, now) == boundary
  {
  }

  lemma NoCrossing(g: Seg, boundary: nat, now: nat)
    requires WithinBounds(g) && (g.maxNS <= boundary || g.minNS >= boundary)
    ensures Earliest(g.metrics, boundary, now) == boundary
  {
  }

  lemma EarliestNext(gs: seq<Seg>, i: nat, boundary: nat, now: nat)
    requires i < |gs|
    ensures Earliest(MetricsOf(gs[..i + 1]), boundary, now) ==
              Min(Earliest(MetricsOf(gs[..i]), boundary, now), Earliest(gs[i].metrics, boundary, now))
  {
    assert gs[..i + 1] == gs[..i] + [gs[i]];
    MetricsOfAppend(gs[..i], gs[i]);
    EarliestConcat(MetricsOf(gs[..i]), gs[i].metrics, boundary, now);
  }

  /** A sealed rollup is searched only when its extreme timestamps allow a crossing. */
  method IncludeRollup(b: Backed, ghost g: Seg, boundary: nat, now: nat, actual: nat) returns (r: nat)
    requires Holds(b, g) && WithinBounds(g) && actual <= boundary
    ensures r == Min(actual, Earliest(g.metrics, boundary, now))
  {
    if b.maxNS > boundary && b.minNS < boundary {
      r := IncludeBoundary(b, g, boundary, now, actual);
    } else {
      NoCrossing(g, boundary, now);
      r := actual;
    }
  }

  /** Lower `actual` over the crossing intervals of one rollup. */
  method IncludeBoundary(b: Backed, ghost g: Seg, boundary: nat, now: nat, actual: nat) returns (r: nat)
    requires Holds(b, g) && actual <= boundary
    ensures r == Min(actual, Earliest(g.metrics, boundary, now))
  {
    r := actual;
    for i := 0 to b.metricCount
      invariant r == Min(actual, Earliest(g.metrics[..i], boundary, now))
    {
      var m := b.metrics[i];
      assert m == g.metrics[i];
      assert g.metrics[..i + 1][..i] == g.metrics[..i];
      if m.start < boundary && m.end > boundary && m.end <= now {
        r := Min(r, m.start);
      }
    }
    assert g.metrics[..b.metricCount] == g.metrics;
  }

  lemma SealedEnds(s: State)
    requires Inv(s)
    ensures forall i, j :: 0 <= i <= j < |s.sealed| ==> s.sealed[i].end <= s.sealed[j].end
  {
    forall i, j | 0 <= i < j < |s.sealed|
      ensures s.sealed[i].end <= s.sealed[j].end
    {
      assert s.sealed[j] in s.sealed;
    }
  }

  lemma {:induction false} PiecesConcat(a: seq<Seg>, b: seq<Seg>, actual: nat, eventStart: nat, now: nat)
    ensures Pieces(a + b, actual, eventStart, now)
         == Pieces(a, actual, eventStart, now) + Pieces(b, actual, eventStart, now)
  {
    if |a| == 0 {
      assert a + b == b;
    } else {
      hide Select;
      assert (a + b)[0] == a[0] && (a + b)[1..] == a[1..] + b;
      PiecesConcat(a[1..], b, actual, eventStart, now);
      var first, rest, more := Select(a[0], actual, eventStart, now), Pieces(a[1..], actual, eventStart, now),
                               Pieces(b, actual, eventStart, now);
      assert first + (rest + more) == first + rest + more;
    }
  }

  lemma {:induction false} PieceMetricsConcat(a: seq<Piece>, b: seq<Piece>)
    ensures PieceMetrics(a + b) == PieceMetrics(a) + PieceMetrics(b)
  {
    if |a| == 0 {
      assert a + b == b;
    } else {
      assert (a + b)[1..] == a[1..] + b;
      PieceMetricsConcat(a[1..], b);
    }
  }

  lemma {:induction false} LatestEndConcat(a: seq<Metric>, b: seq<Metric>)
    ensures LatestEnd(a + b) == Max(LatestEnd(a), LatestEnd(b))
  {
    if |b| == 0 {
      assert a + b == a;
    } else {
      assert (a + b)[..|a + b| - 1] == a + b[..|b| - 1];
      LatestEndConcat(a, b[..|b| - 1]);
    }
  }

  /** Selecting one more segment adds its piece, if any, and raises the latest metric end. */
  lemma PiecesAppend(gs: seq<Seg>, g: Seg, actual: nat, eventStart: nat, now: nat)
    ensures var ps, p := Pieces(gs, actual, eventStart, now), Select(g, actual, eventStart, now);
            Pieces(gs + [g], actual, eventStart, now) == ps + p &&
            LatestEnd(PieceMetrics(ps + p))
              == if |p| == 0 then LatestEnd(PieceMetrics(ps))
                 else Max(LatestEnd(PieceMetrics(ps)), LatestEnd(p[0].metrics))
  {
    var ps, p := Pieces(gs, actual, eventStart, now), Select(g, actual, eventStart, now);
    PiecesConcat(gs, [g], actual, eventStart, now);
    assert [g][1..] == [];
    assert Pieces([g], actual, eventStart, now) == p;
    PieceMetricsConcat(ps, p);
    if |p| > 0 {
      assert p[1..] == [];
      assert PieceMetrics(p) == p[0].metrics;
      LatestEndConcat(PieceMetrics(ps), p[0].metrics);
    } else {
      assert ps + p == ps;
    }
  }

  /** Sealed segments that end before the window contribute nothing. */
  lemma {:induction false} EarlierSealedSelectNothing(s: State, first: nat, actual: nat, eventStart: nat, now: nat)
    requires Inv(s) && first <= |s.sealed|
    requires forall k :: 0 <= k < first ==> s.sealed[k].end < actual
    ensures Pieces(s.sealed[..first], actual, eventStart, now) == []
  {
    if first > 0 {
      var g := s.sealed[first - 1];
      assert g in s.sealed;
      EarlierSealedSelectNothing(s, first - 1, actual, eventStart, now);
      assert s.sealed[..first] == s.sealed[..first - 1] + [g];
      PiecesAppend(s.sealed[..first - 1], g, actual, eventStart, now);
    }
  }

  /** Raise the aggregate-only mark over one selected rollup. */
  method Mark(x: Slice, ghost p: Piece, until: nat) returns (r: nat)
    requires Shows(x, p)
    ensures r == Max(until, LatestEnd(p.metrics))
  {
    r := until;
    for i := 0 to x.metricCount
      invariant r == Max(until, LatestEnd(p.metrics[..i]))
    {
      assert x.metrics[i] == p.metrics[i];
      assert p.metrics[..i + 1][..i] == p.metrics[..i];
      r := Max(r, x.metrics[i].end);
    }
    assert p.metrics[..x.metricCount] == p.metrics;
  }

  /** Select from one segment: skip it, share its buffers, copy it, or filter a copy. */
  method SelectOne(b: Backed, ghost g: Seg, immutable: bool, actual: nat, eventStart: nat, now: nat)
    returns (o: Option<Slice>)
    requires Holds(b, g) && WithinBounds(g) && actual <= eventStart
    ensures o.Some? <==> |Select(g, actual, eventStart, now)| == 1
    ensures o.None? <==> |Select(g, actual, eventStart, now)| == 0
    ensures o.Some? ==> Shows(o.value, Select(g, actual, eventStart, now)[0])
    ensures o.Some? ==> (fresh(o.value.events) && fresh(o.value.metrics)) ||
                        (immutable && o.value.events == b.events && o.value.metrics == b.metrics)
  {
    if b.maxNS < actual || b.minNS > now {
      return None;
    }
    var contained := b.minNS >= actual && b.maxNS <= now;
    var eventsContained := b.eventCount == 0 || b.minNS >= eventStart;
    if contained && eventsContained {
      AllEvents(g.events, eventStart, now);
      AllMetrics(g.metrics, actual, now);
      if immutable {
        return Some(Slice(b.start, b.end, b.events, b.eventCount, b.metrics, b.metricCount));
      }
      var es := CopyOf(b.events, b.eventCount, b.eventCount);
      var ms := CopyOf(b.metrics, b.metricCount, b.metricCount);
      return Some(Slice(b.start, b.end, es, b.eventCount, ms, b.metricCount));
    }
    var es := EventsIn(b, g, eventStart, now);
    var ms := MetricsIn(b, g, actual, now);
    return Some(Slice(b.start, b.end, es, es.Length, ms, ms.Length));
  }

  lemma RollupsOf(s: State)
    ensures Rollups(s) == if s.rollupActive.Some? then s.rollups + [s.rollupActive.value] else s.rollups
    ensures s.rollups[..0] == []
    ensures forall a, e, n :: Pieces(s.rollups[..0], a, e, n) == []
    ensures LatestEnd(PieceMetrics([])) == 0
  {
  }

  lemma RawOf(s: State)
    ensures RawSegments(s) == s.sealed + [s.active]
  {
  }

  lemma NothingShows(mutable: set<object>)
    ensures AllShow([], []) && Arrays([]) !! mutable
  {
  }

  lemma ShowsConcat(xs: seq<Slice>, ps: seq<Piece>, ys: seq<Slice>, qs: seq<Piece>, mutable: set<object>)
    requires AllShow(xs, ps) && AllShow(ys, qs) && Arrays(xs) !! mutable && Arrays(ys) !! mutable
    ensures AllShow(xs + ys, ps + qs) && Arrays(xs + ys) !! mutable
  {
  }

  /** Select from one segment and append what it contributes. */
  method SelectInto(xs: seq<Slice>, ghost ps: seq<Piece>, b: Backed, ghost g: Seg, immutable: bool,
                    actual: nat, eventStart: nat, now: nat, ghost mutable: set<object>) returns (ys: seq<Slice>)
    requires AllShow(xs, ps) && Arrays(xs) !! mutable
    requires Holds(b, g) && WithinBounds(g) && actual <= eventStart
    requires immutable ==> b.events !in mutable && b.metrics !in mutable
    ensures AllShow(ys, ps + Select(g, actual, eventStart, now)) && Arrays(ys) !! mutable
    ensures xs <= ys && |ys| == |xs| + |Select(g, actual, eventStart, now)|
  {
    ghost var p := Select(g, actual, eventStart, now);
    var o := SelectOne(b, g, immutable, actual, eventStart, now);
    hide WithinBounds, Holds, Select;
    if o.Some? {
      assert p == [p[0]];
      assert AllShow([o.value], [p[0]]);
      ShowsConcat(xs, ps, [o.value], [p[0]], mutable);
      ys := xs + [o.value];
    } else {
      assert ps + p == ps;
      ys := xs;
    }
  }

  /** The same for a rollup, raising the aggregate-only mark. */
  method SelectAndMark(xs: seq<Slice>, ghost ps: seq<Piece>, until: nat, b: Backed, ghost g: Seg, immutable: bool,
                       actual: nat, eventStart: nat, now: nat, ghost mutable: set<object>)
    returns (ys: seq<Slice>, mark: nat)
    requires AllShow(xs, ps) && Arrays(xs) !! mutable
    requires Holds(b, g) && WithinBounds(g) && actual <= eventStart
    requires immutable ==> b.events !in mutable && b.metrics !in mutable
    ensures AllShow(ys, ps + Select(g, actual, eventStart, now)) && Arrays(ys) !! mutable
    ensures var p := Select(g, actual, eventStart, now);
            mark == if |p| == 0 then until else Max(until, LatestEnd(p[0].metrics))
  {
    ys := SelectInto(xs, ps, b, g, immutable, actual, eventStart, now, mutable);
    mark := until;
    ghost var p := Select(g, actual, eventStart, now);
    if |ys| > |xs| {
      assert |ys| == |ps + p| && (ps + p)[|ps|] == p[0];
      mark := Mark(ys[|ys| - 1], p[0], until);
    }
  }

  /** How many events of a segment lie in the window. */
  method CountEvents(b: Backed, ghost g: Seg, lo: nat, hi: nat) returns (count: nat)
    requires Holds(b, g)
    ensures count == |SelectEvents(g.events, lo, hi)|
  {
    count := 0;
    for i := 0 to b.eventCount
      invariant count == |SelectEvents(g.events[..i], lo, hi)|
    {
      assert b.events[i] == g.events[i] && g.events[..i + 1][..i] == g.events[..i];
      if b.events[i].mono >= lo && b.events[i].mono <= hi {
        count := count + 1;
      }
    }
    assert g.events[..b.eventCount] == g.events;
  }

  /** Count, then copy, the events of a segment that lie in the window. */
  method EventsIn(b: Backed, ghost g: Seg, lo: nat, hi: nat) returns (r: array<Event>)
    requires Holds(b, g)
    ensures fresh(r) && r[..] == SelectEvents(g.events, lo, hi)
  {
    var count := CountEvents(b, g, lo, hi);
    r := new Event[count];
    var n := 0;
    for i := 0 to b.eventCount
      invariant n == |SelectEvents(g.events[..i], lo, hi)| <= count
      invariant r[..n] == SelectEvents(g.events[..i], lo, hi)
      invariant b.events[..b.eventCount] == g.events
    {
      assert b.events[i] == g.events[i] && g.events[..i + 1][..i] == g.events[..i];
      MoreEvents(g.events, i + 1, lo, hi);
      if b.events[i].mono >= lo && b.events[i].mono <= hi {
        r[n] := b.events[i];
        n := n + 1;
      }
    }
    assert g.events[..b.eventCount] == g.events;
  }

  lemma MoreEvents(es: seq<Event>, i: nat, lo: nat, hi: nat)
    requires i <= |es|
    ensures |SelectEvents(es[..i], lo, hi)| <= |SelectEvents(es, lo, hi)|
  {
    assert es == es[..i] + es[i..];
    SelectEventsConcat(es[..i], es[i..], lo, hi);
  }

  /** How many metrics of a segment have their whole interval in the window. */
  method CountMetrics(b: Backed, ghost g: Seg, lo: nat, hi: nat) returns (count: nat)
    requires Holds(b, g)
    ensures count == |SelectMetrics(g.metrics, lo, hi)|
  {
    count := 0;
    for i := 0 to b.metricCount
      invariant count == |SelectMetrics(g.metrics[..i], lo, hi)|
    {
      assert b.metrics[i] == g.metrics[i] && g.metrics[..i + 1][..i] == g.metrics[..i];
      if b.metrics[i].start >= lo && b.metrics[i].end <= hi {
        count := count + 1;
      }
    }
    assert g.metrics[..b.metricCount] == g.metrics;
  }

  /** Count, then copy, the metrics of a segment whose intervals lie in the window. */
  method MetricsIn(b: Backed, ghost g: Seg, lo: nat, hi: nat) returns (r: array<Metric>)
    requires Holds(b, g)
    ensures fresh(r) && r[..] == SelectMetrics(g.metrics, lo, hi)
  {
    var count := CountMetrics(b, g, lo, hi);
    r := new Metric[count];
    var n := 0;
    for i := 0 to b.metricCount
      invariant n == |SelectMetrics(g.metrics[..i], lo, hi)| <= count
      invariant r[..n] == SelectMetrics(g.metrics[..i], lo, hi)
      invariant b.metrics[..b.metricCount] == g.metrics
    {
      assert b.metrics[i] == g.metrics[i] && g.metrics[..i + 1][..i] == g.metrics[..i];
      MoreMetrics(g.metrics, i + 1, lo, hi);
      if b.metrics[i].start >= lo && b.metrics[i].end <= hi {
        r[n] := b.metrics[i];
        n := n + 1;
      }
    }
    assert g.metrics[..b.metricCount] == g.metrics;
  }

  lemma MoreMetrics(ms: seq<Metric>, i: nat, lo: nat, hi: nat)
    requires i <= |ms|
    ensures |SelectMetrics(ms[..i], lo, hi)| <= |SelectMetrics(ms, lo, hi)|
  {
    assert ms == ms[..i] + ms[i..];
    SelectMetricsConcat(ms[..i], ms[i..], lo, hi);
  }

  // ----- isolation -----

  /** However the recorder is used after a snapshot, the snapshot keeps showing what it
      showed: later events, metrics, folds and evictions never reach a returned capture. */
  method SnapshotThenRun(r: Recorder, start: nat, now: nat, host: Host, ops: seq<Op>) returns (c: Selection)
    requires r.Valid() && Inv(r.model)
    modifies r, r.Mutable()
    ensures r.Valid() && Buffered(old(r.model)) && r.model == Run(old(r.model), ops)
    ensures var spec := SnapshotSpec.SnapshotWindow(old(r.model), start, now, host);
            c.manifest == spec.manifest && c.host == spec.host && AllShow(c.segments, spec.segments)
  {
    c := r.SnapshotWindow(start, now, host);
    r.ApplyAll(ops);
  }

  /** A copy of the first `count` slots of a buffer, with room for `capacity`. */
  method CopyOf<T(0)>(buffer: array<T>, count: nat, capacity: nat) returns (r: array<T>)
    requires count <= buffer.Length && count <= capacity
    ensures fresh(r) && r.Length == capacity && r[..count] == buffer[..count]
  {
    r := new T[capacity];
    forall k | 0 <= k < count {
      r[k] := buffer[k];
    }
  }

  /** An empty segment with buffers of its own. */
  method NewBacked(start: nat, end: nat, maxNS: nat) returns (b: Backed)
    ensures Holds(b, Seg(start, end, [], 0, [], 0, SEGMENT_COST, start, maxNS))
    ensures fresh(b.events) && fresh(b.metrics)
  {
    var es := new Event[0];
    var ms := new Metric[0];
    b := Backed(start, end, es, 0, ms, 0, SEGMENT_COST, start, maxNS);
  }

  function RoomForEvent(s: State, e: Event): State
    requires Buffered(s)
  {
    RecorderSpec.Room(s, EventCost(s.active, e), false)
  }

  function RoomForMetric(s: State, m: Metric): State
    requires Buffered(s)
  {
    RecorderSpec.Room(s, MetricCost(s.active, m), true)
  }

  lemma RoomFrame(s: State, cost: nat, metric: bool)
    requires Buffered(s)
    ensures var r := RecorderSpec.Room(s, cost, metric);
            r.active == s.active && r.drops == s.drops && r.max == s.max && Buffered(r)
  {
    FoldFrame(s, cost);
    EvictFrame(RecorderSpec.FoldUntilFits(s, cost), cost);
  }

  lemma CostOfEvent(g: Seg, e: Event)
    requires |g.events| <= g.eventCap
    ensures EventCost(g, e) == StringCost(e) + EventBytes(Grown(|g.events|, g.eventCap, FIRST_EVENTS) - g.eventCap) >= 0
  {
  }

  lemma CostOfMetric(g: Seg, m: Metric)
    requires |g.metrics| <= g.metricCap
    ensures MetricCost(g, m) == |m.family| + MetricBytes(Grown(|g.metrics|, g.metricCap, FIRST_METRICS)
        - g.metricCap) >= 0
  {
  }

  /** The outcomes of offering an event: late, no room, or appended. */
  lemma EventCases(s: State, e: Event, now: nat)
    requires Buffered(s)
    ensures var t := RecorderSpec.Advance(s, now);
            Buffered(t) && t.history == s.history && Drop(t).drops == s.drops + 1 &&
            var u, cost := RoomForEvent(t, e), EventCost(t.active, e);
            Buffered(u) &&
            AcceptEvent(s, e, now) == (if e.mono > now || now - e.mono > s.history then Drop(t)
                                       else if u.bytes + cost <= u.max then AddEvent(u, e) else Drop(u)) &&
            AddEvent(u, e).drops == s.drops && Drop(u).drops == s.drops + 1
  {
    AdvanceKeepsBuffers(s, now);
    AdvanceFrame(s, now);
    hide RecorderSpec.Advance;
    var t := RecorderSpec.Advance(s, now);
    RoomFrame(t, EventCost(t.active, e), false);
  }

  /** The outcomes of offering a metric: no room, or appended. */
  lemma MetricCases(s: State, m: Metric, now: nat)
    requires Buffered(s)
    ensures var t := RecorderSpec.Advance(s, now);
            Buffered(t) &&
            var u, cost := RoomForMetric(t, m), MetricCost(t.active, m);
            Buffered(u) &&
            AcceptMetric(s, m, now) == (if u.bytes + cost <= u.max then AddMetric(u, m) else Drop(u)) &&
            AddMetric(u, m).drops == s.drops && Drop(u).drops == s.drops + 1
  {
    AdvanceKeepsBuffers(s, now);
    AdvanceFrame(s, now);
    hide RecorderSpec.Advance;
    var t := RecorderSpec.Advance(s, now);
    RoomFrame(t, MetricCost(t.active, m), true);
  }

  lemma AddMetricsOne(s: State, m: Metric)
    requires s.rollupActive.Some?
    ensures var a := AddToRollup(s.rollupActive.value, m);
            AddMetrics(s, [m]) == s.(rollupActive := Some(a), bytes := s.bytes + a.bytes - s.rollupActive.value.bytes)
  {
    assert [m][1..] == [];
    assert AddAll(AddToRollup(s.rollupActive.value, m), []) == AddToRollup(s.rollupActive.value, m);
  }

  lemma AddMetricsStep(s: State, m: Metric, rest: seq<Metric>)
    requires s.rollupActive.Some?
    ensures AddMetrics(AddMetrics(s, [m]), rest) == AddMetrics(s, [m] + rest)
  {
    AddMetricsOne(s, m);
    assert ([m] + rest)[1..] == rest;
  }
}
