/** What a capture holds of the intervals that triggered it: the polls behind each trigger, and
    which of the aggregates still retained for a triggering interval are selected. */
module CaptureEvidence {
  import opened Telemetry
  import opened CaptureModel
  import opened RecorderSpec
  import opened RecorderInvariant
  import opened RecorderConservation
  import opened SnapshotSpec
  import opened SnapshotCoverage
  import opened ControllerSpec

  // ----- instants -----

  predicate Spans(m: Metric, family: string, instant: nat) {
    m.family == family && m.start <= instant < m.end
  }

  predicate Covered(ms: seq<Metric>, family: string, instant: nat) {
    exists m :: m in ms && Spans(m, family, instant)
  }

  lemma {:induction false} LayersCover(ms: seq<Metric>, family: string, instant: nat)
    ensures Sum(ms, family, instant).layers > 0 <==> Covered(ms, family, instant)
  {
    hide Plus, Zero;
    if |ms| > 0 {
      LayersCover(ms[1..], family, instant);
      assert Weigh(ms[0], family, instant).layers > 0 <==> Spans(ms[0], family, instant);
      assert forall m :: m in ms <==> m == ms[0] || m in ms[1..];
    }
  }

  /** The instant was accepted more often than it was lost to age and memory. */
  predicate Survives(l: Ledger, family: string, instant: nat) {
    Sum(l.accepted, family, instant).layers >
      Sum(l.expired, family, instant).layers + Sum(l.evicted, family, instant).layers
  }

  lemma RetainedExactly(s: State, family: string, instant: nat)
    requires Balanced(s, family, instant)
    ensures Covered(Retained(s), family, instant) <==> Survives(s.ledger, family, instant)
  {
    hide Sum, Retained, Plus, Zero;
    LayersCover(Retained(s), family, instant);
  }

  /** A retained aggregate over the instant that ends in the window and is in reach. */
  ghost predicate Selects(s: State, start: nat, now: nat, family: string, instant: nat) {
    exists r :: r in Retained(s) && Spans(r, family, instant) && r.end <= now && InReach(s, start, now, r)
  }

  lemma CapturedInstant(s: State, start: nat, now: nat, host: Host, family: string, instant: nat)
    requires Inv(s) && start <= now
    ensures Covered(PieceMetrics(SnapshotWindow(s, start, now, host).segments), family, instant) <==>
              Selects(s, start, now, family, instant)
  {
    hide Inv, Retained, SnapshotWindow, InReach;
    var ms := PieceMetrics(SnapshotWindow(s, start, now, host).segments);
    forall m | m in ms ensures m in Retained(s) && m.end <= now && InReach(s, start, now, m) {
      CapturedFromRetained(s, start, now, host, m);
      CapturedExactly(s, start, now, host, m);
    }
    forall m | m in Retained(s) && m.end <= now && InReach(s, start, now, m) ensures m in ms {
      CapturedExactly(s, start, now, host, m);
    }
  }

  lemma CapturedFromRetained(s: State, start: nat, now: nat, host: Host, m: Metric)
    requires Inv(s) && m in PieceMetrics(SnapshotWindow(s, start, now, host).segments)
    ensures m in Retained(s)
  {
    hide Inv, Retained, Actual, Pieces;
    SnapshotExact(s, start, now, host);
    SelectedMetricsInWindow(Retained(s), Actual(s, start, now), now);
  }

  // ----- the polls behind a trigger -----

  /** A poll of the trigger's family with observations opened it, and one ended it. */
  predicate Witnessed(t: Trigger, offered: seq<Metric>) {
    (exists m :: m in offered && m.family == t.family && Weight(m) > 0 && m.start == t.firstStart) &&
    exists m :: m in offered && m.family == t.family && Weight(m) > 0 && m.end == t.lastEnd
  }

  predicate AllWitnessed(a: Incident, offered: seq<Metric>) {
    forall t :: t in a.triggers ==> Witnessed(t, offered)
  }

  predicate Backed(c: Control, offered: seq<Metric>) {
    (c.current.Some? ==> AllWitnessed(c.current.value, offered)) &&
    (c.next.Some? ==> AllWitnessed(c.next.value, offered))
  }

  lemma NoteWitnessed(c: Config, a: Incident, m: Metric, offered: seq<Metric>)
    requires AllWitnessed(a, offered) && m in offered && Weight(m) > 0
    ensures AllWitnessed(Note(c, a, m), offered)
  {
    hide Weight;
    var r, i := Note(c, a, m), FamilyIndex(a.triggers, m.family);
    forall t | t in r.triggers ensures Witnessed(t, offered) {
      var k :| 0 <= k < |r.triggers| && r.triggers[k] == t;
      if k < |a.triggers| {
        assert a.triggers[k] in a.triggers && Witnessed(a.triggers[k], offered);
      }
    }
  }

  lemma ObserveBacked(c: Control, m: Metric, now: nat, offered: seq<Metric>)
    requires c.next.Some? ==> c.next.value.detected <= now
    requires Backed(c, offered) && m in offered
    ensures Backed(Observe(c, m, now), offered)
  {
    if Triggers(c, m) {
      hide Weight, Note, Witnessed;
      NoteWitnessed(c.config, NewIncident(c.config, now), m, offered);
      if c.current.Some? {
        NoteWitnessed(c.config, c.current.value, m, offered);
      }
      if c.next.Some? {
        NoteWitnessed(c.config, Extend(c.config, c.next.value, now), m, offered);
      }
    }
  }

  lemma MoreBacked(c: Control, offered: seq<Metric>, ms: seq<Metric>)
    requires Backed(c, offered)
    ensures Backed(c, offered + ms)
  {
    hide Weight;
    forall t | Witnessed(t, offered) ensures Witnessed(t, offered + ms) {
      var a :| a in offered && a.family == t.family && Weight(a) > 0 && a.start == t.firstStart;
      var b :| b in offered && b.family == t.family && Weight(b) > 0 && b.end == t.lastEnd;
      assert a in offered + ms && b in offered + ms;
    }
  }

  // ----- under steady polling -----

  /** The aggregate overlaps the trigger's span. */
  predicate Overlaps(r: Metric, t: Trigger) {
    r.family == t.family && r.start < t.lastEnd && t.firstStart < r.end
  }

  lemma InOrder(offered: seq<Metric>, a: Metric, b: Metric)
    requires Order(offered) && a in offered && b in offered && a.family == b.family
    ensures a == b || a.end <= b.start || b.end <= a.start
  {
    var i :| 0 <= i < |offered| && offered[i] == a;
    var j :| 0 <= j < |offered| && offered[j] == b;
  }

  /** A poll that overlaps a trigger's span lies within it. */
  lemma PollWithin(offered: seq<Metric>, r: Metric, t: Trigger)
    requires Order(offered) && r in offered && Overlaps(r, t) && Witnessed(t, offered)
    requires forall m :: m in offered ==> m.start <= m.end
    ensures t.firstStart <= r.start && r.end <= t.lastEnd
  {
    var a :| a in offered && a.family == t.family && Weight(a) > 0 && a.start == t.firstStart;
    var b :| b in offered && b.family == t.family && Weight(b) > 0 && b.end == t.lastEnd;
    InOrder(offered, r, a);
    InOrder(offered, r, b);
  }

  /** Under steady polling: of the aggregates retained over a trigger's span, a capture that reaches
      back to the span holds exactly those that end in its window, unless there is no rollup and
      the aggregate straddles the start of the oldest segment. */
  lemma PolledEvidence(s: State, offered: seq<Metric>, clock: nat, start: nat, now: nat, host: Host, t: Trigger,
                       r: Metric)
    requires Inv(s) && Steady(s, offered, clock) && Order(offered) && Witnessed(t, offered)
    requires forall m :: m in offered ==> m.start <= m.end
    requires start <= t.firstStart && t.lastEnd <= now && start <= now && r in Retained(s) && Overlaps(r, t)
    ensures r in PieceMetrics(SnapshotWindow(s, start, now, host).segments) <==>
              r.end <= now && (HasRollup(s) || r.start >= DetailFrom(s))
  {
    hide Inv, Steady, Order, Witnessed, Retained, RawMetrics, RollupMetrics, SnapshotWindow;
    CapturedExactly(s, start, now, host, r);
    if r.end <= now {
      Tier(s, r);
      if HasRollup(s) {
        OldestReached(s, offered, clock, r);
        if r in RawMetrics(s) {
          RawOffered(s, offered, clock, r);
          PollWithin(offered, r, t);
        }
        ReachedByRollups(s, start, now, t, r);
      } else {
        NoRollups(s);
        RawOffered(s, offered, clock, r);
        PollWithin(offered, r, t);
        assert RetainedFrom(s) == DetailFrom(s);
      }
    }
  }

  lemma Tier(s: State, r: Metric)
    requires r in Retained(s)
    ensures r in RawMetrics(s) || r in RollupMetrics(s)
  {
  }

  lemma NoRollups(s: State)
    requires !HasRollup(s)
    ensures RollupMetrics(s) == []
  {
  }

  lemma RawOffered(s: State, offered: seq<Metric>, clock: nat, r: Metric)
    requires Steady(s, offered, clock) && r in RawMetrics(s)
    ensures r in offered
  {
  }

  lemma OldestReached(s: State, offered: seq<Metric>, clock: nat, r: Metric)
    requires Inv(s) && Steady(s, offered, clock) && HasRollup(s) && r in Retained(s)
    ensures RetainedFrom(s) <= r.start
  {
    FirstRetained(s);
    SteadyStarts(s, offered, clock);
    hide *;
    AllFromFirst(Retained(s), RetainedFrom(s));
  }

  lemma ReachedByRollups(s: State, start: nat, now: nat, t: Trigger, r: Metric)
    requires RetainedFrom(s) <= r.start && start <= t.firstStart && t.lastEnd <= now && Overlaps(r, t) && r.end <= now
    requires r in RollupMetrics(s) || t.firstStart <= r.start
    ensures InReach(s, start, now, r)
  {
    hide RetainedFrom, RollupMetrics;
    if r.start < Boundary(s, start, now) {
      assert Crosses(r, Boundary(s, start, now), now);
    }
  }
}
