/** The block request timer of the kernel program against an ideal specification over traces
    of issues, requeues and completions at reused request addresses. */
module BlockTiming {

  datatype Event =
    | Issue(key: nat, generation: nat, now: nat, bytes: nat, room: bool)
    | Requeue(key: nat, generation: nat)
    | Complete(key: nat, generation: nat, now: nat, remaining: nat, completed: nat, operation: nat)

  const OP_WRITE: nat := 1

  // ----- the ideal specification -----

  predicate IssueOf(e: Event, key: nat) {
    e.Issue? && e.key == key
  }

  /** Completions that report the last of the data; only they end a request. */
  predicate Final(e: Event) {
    e.Complete? && e.completed >= e.remaining
  }

  predicate FinalOf(e: Event, key: nat) {
    Final(e) && e.key == key
  }

  /** An issue since the last final completion found room in the map. */
  predicate Tracked(h: seq<Event>, key: nat) {
    |h| > 0 &&
    var e, rest := h[|h| - 1], h[..|h| - 1];
    if FinalOf(e, key) then false else if IssueOf(e, key) && e.room then true else Tracked(rest, key)
  }

  /** A requeue of this generation was observed since the address was last issued. */
  predicate RequeuedSince(h: seq<Event>, key: nat, generation: nat) {
    |h| > 0 &&
    var e, rest := h[|h| - 1], h[..|h| - 1];
    if IssueOf(e, key) then false
    else if e == Requeue(key, generation) then true
    else RequeuedSince(rest, key, generation)
  }

  /** Issue `j` belongs to the request now at this address: nothing completed since, and every
      later issue is the same generation coming back after an observed requeue. */
  predicate Reaches(h: seq<Event>, key: nat, generation: nat, j: nat) {
    j < |h| && IssueOf(h[j], key) && h[j].generation == generation && Tracked(h[..j + 1], key) &&
    (forall k :: j < k < |h| ==> !FinalOf(h[k], key)) &&
    forall k :: j < k < |h| && IssueOf(h[k], key) ==>
      h[k].generation == generation && RequeuedSince(h[..k], key, generation)
  }

  /** The earliest issue reachable back through observed requeues. */
  predicate Earliest(h: seq<Event>, key: nat, generation: nat, j: nat) {
    Reaches(h, key, generation, j) && forall i :: 0 <= i < j ==> !Reaches(h, key, generation, i)
  }

  predicate RequeuedAfter(h: seq<Event>, key: nat, generation: nat, j: nat) {
    exists r :: j < r < |h| && h[r] == Requeue(key, generation)
  }

  /** The issue a latency may be measured from. Without generations a requeue makes the
      address ambiguous, so nothing is measured across one. */
  predicate Origin(h: seq<Event>, key: nat, generation: nat, j: nat) {
    Earliest(h, key, generation, j) && (generation == 0 ==> !RequeuedAfter(h, key, 0, j))
  }

  // ----- the request timing record -----

  datatype Timing = Timing(start: nat, generation: nat, requeued: bool)

  datatype Inflight = Inflight(timing: Timing, bytes: nat)

  /** The entry was made at issue `j`, the earliest of its request. */
  predicate MadeAt(v: Inflight, h: seq<Event>, key: nat, j: nat) {
    var g := v.timing.generation;
    j < |h| && h[j].Issue? && Earliest(h, key, g, j) && v.bytes == h[j].bytes &&
    v.timing.start == if g == 0 && RequeuedAfter(h, key, 0, j) then 0 else h[j].now
  }

  /** What the map entry of a key must say after a trace. */
  ghost predicate Remembers(v: Inflight, h: seq<Event>, key: nat) {
    v.timing.requeued == RequeuedSince(h, key, v.timing.generation) && exists j: nat :: MadeAt(v, h, key, j)
  }

  ghost predicate Agrees(starts: map<nat, Inflight>, h: seq<Event>) {
    forall key: nat :: (key in starts <==> Tracked(h, key)) && (key in starts ==> Remembers(starts[key], h, key))
  }

  /** An event that neither issues, requeues nor ends the request at a key. */
  predicate Foreign(e: Event, key: nat) {
    e.key != key || (e.Complete? && !Final(e))
  }

  lemma ReachesAppend(h: seq<Event>, e: Event, key: nat, g: nat, j: nat)
    requires j < |h|
    ensures Reaches(h + [e], key, g, j) <==>
              Reaches(h, key, g, j) && !FinalOf(e, key) &&
              (IssueOf(e, key) ==> e.generation == g && RequeuedSince(h, key, g))
  {
    var r := h + [e];
    assert r[..j + 1] == h[..j + 1];
    assert forall k :: 0 <= k <= |h| ==> r[..k] == h[..k];
    assert h[..|h|] == h;
    assert forall k :: 0 <= k < |h| ==> r[k] == h[k];
    assert r[|h|] == e;
  }

  lemma ReachesLast(h: seq<Event>, e: Event, key: nat, g: nat)
    ensures Reaches(h + [e], key, g, |h|) <==> IssueOf(e, key) && e.generation == g && Tracked(h + [e], key)
  {
    assert (h + [e])[..|h| + 1] == h + [e];
  }

  lemma EarliestAppend(h: seq<Event>, e: Event, key: nat, g: nat, j: nat)
    requires Earliest(h, key, g, j) && !FinalOf(e, key)
    requires IssueOf(e, key) ==> e.generation == g && RequeuedSince(h, key, g)
    ensures Earliest(h + [e], key, g, j)
  {
    hide Reaches;
    assert j < |h| by { ReachesIndex(h, key, g, j); }
    forall i | 0 <= i <= j ensures Reaches(h + [e], key, g, i) <==> Reaches(h, key, g, i) {
      ReachesAppend(h, e, key, g, i);
    }
  }

  lemma ReachesIndex(h: seq<Event>, key: nat, g: nat, j: nat)
    requires Reaches(h, key, g, j)
    ensures j < |h|
  {
  }

  /** One address holds one request at a time. */
  lemma SameGeneration(h: seq<Event>, key: nat, g: nat, i: nat, g': nat, j: nat)
    requires Reaches(h, key, g, i) && Reaches(h, key, g', j)
    ensures g == g'
  {
  }

  lemma {:induction false} ReachesTracked(h: seq<Event>, key: nat, g: nat, j: nat)
    requires Reaches(h, key, g, j)
    ensures Tracked(h, key)
    decreases |h|
  {
    if j + 1 == |h| {
      assert h[..j + 1] == h;
    } else {
      var rest, e := h[..|h| - 1], h[|h| - 1];
      assert h == rest + [e];
      ReachesAppend(rest, e, key, g, j);
      ReachesTracked(rest, key, g, j);
    }
  }

  lemma ForeignKeeps(h: seq<Event>, e: Event, key: nat, v: Inflight)
    requires Foreign(e, key)
    ensures Tracked(h + [e], key) == Tracked(h, key)
    ensures Remembers(v, h, key) ==> Remembers(v, h + [e], key)
  {
    hide Reaches;
    assert (h + [e])[..|h|] == h;
    if Remembers(v, h, key) {
      var g := v.timing.generation;
      var j: nat :| MadeAt(v, h, key, j);
      EarliestAppend(h, e, key, g, j);
      RequeuedAppend(h, e, key, j);
      assert MadeAt(v, h + [e], key, j);
    }
  }

  lemma RequeuedAppend(h: seq<Event>, e: Event, key: nat, j: nat)
    ensures RequeuedAfter(h + [e], key, 0, j) <==> RequeuedAfter(h, key, 0, j) || (e == Requeue(key, 0) && j < |h|)
  {
    var r := h + [e];
    if RequeuedAfter(h, key, 0, j) {
      var k :| j < k < |h| && h[k] == Requeue(key, 0);
      assert r[k] == Requeue(key, 0);
    }
    if e == Requeue(key, 0) && j < |h| {
      assert r[|h|] == Requeue(key, 0);
    }
  }

  /** A final completion leaves nothing to measure from. */
  lemma FinalForgets(h: seq<Event>, e: Event)
    requires Final(e)
    ensures !Tracked(h + [e], e.key)
  {
  }

  lemma RequeueRemembers(h: seq<Event>, key: nat, g: nat, v: Inflight)
    requires Remembers(v, h, key)
    ensures Tracked(h + [Requeue(key, g)], key) == Tracked(h, key)
    ensures Remembers(v.(timing := RequeueTiming(v.timing, g)), h + [Requeue(key, g)], key)
  {
    hide Reaches;
    var e := Requeue(key, g);
    assert (h + [e])[..|h|] == h;
    var j: nat :| MadeAt(v, h, key, j);
    EarliestAppend(h, e, key, v.timing.generation, j);
    RequeuedAppend(h, e, key, j);
    assert MadeAt(v.(timing := RequeueTiming(v.timing, g)), h + [e], key, j);
  }

  /** The timing after a requeue: marked, and unusable when there are no generations. */
  function RequeueTiming(t: Timing, generation: nat): Timing {
    if t.generation != generation then t
    else t.(requeued := true, start := if generation == 0 then 0 else t.start)
  }

  /** A requeued request coming back keeps its first issue. */
  lemma ResumeRemembers(h: seq<Event>, e: Event, v: Inflight)
    requires e.Issue? && Remembers(v, h, e.key) && Tracked(h, e.key)
    requires v.timing.requeued && v.timing.generation == e.generation
    ensures Tracked(h + [e], e.key)
    ensures Remembers(v.(timing := v.timing.(requeued := false)), h + [e], e.key)
  {
    hide Reaches;
    assert (h + [e])[..|h|] == h;
    var g := e.generation;
    var j: nat :| MadeAt(v, h, e.key, j);
    EarliestAppend(h, e, e.key, g, j);
    RequeuedAppend(h, e, e.key, j);
    assert MadeAt(v.(timing := v.timing.(requeued := false)), h + [e], e.key, j);
  }

  /** Any other stored issue starts the request afresh. */
  lemma FreshRemembers(h: seq<Event>, e: Event, starts: map<nat, Inflight>)
    requires e.Issue? && Agrees(starts, h) && (e.room || e.key in starts)
    requires e.key in starts ==> !starts[e.key].timing.requeued || starts[e.key].timing.generation != e.generation
    ensures Tracked(h + [e], e.key)
    ensures Remembers(Inflight(Timing(e.now, e.generation, false), e.bytes), h + [e], e.key)
  {
    hide Reaches;
    var key, g, r := e.key, e.generation, h + [e];
    assert r[..|h|] == h;
    ReachesLast(h, e, key, g);
    forall i | 0 <= i < |h| ensures !Reaches(r, key, g, i) {
      ReachesAppend(h, e, key, g, i);
      if Reaches(r, key, g, i) {
        ReachesTracked(h, key, g, i);
        var w := starts[key].timing.generation;
        var j: nat :| MadeAt(starts[key], h, key, j);
        SameGeneration(h, key, g, i, w, j);
      }
    }
    assert MadeAt(Inflight(Timing(e.now, g, false), e.bytes), r, key, |h|);
  }

  // ----- the tracker -----

  predicate Resumes(starts: map<nat, Inflight>, e: Event) {
    e.Issue? && e.key in starts && starts[e.key].timing.requeued && starts[e.key].timing.generation == e.generation
  }

  /** The map after one event. */
  function Next(starts: map<nat, Inflight>, e: Event): map<nat, Inflight> {
    match e
    case Issue(key, g, now, bytes, room) =>
      if Resumes(starts, e) then starts[key := starts[key].(timing := starts[key].timing.(requeued := false))]
      else if room || key in starts then starts[key := Inflight(Timing(now, g, false), bytes)]
      else starts
    case Requeue(key, g) =>
      if key in starts then starts[key := starts[key].(timing := RequeueTiming(starts[key].timing, g))] else starts
    case Complete(key, _, _, _, _, _) => if Final(e) then starts - {key} else starts
  }

  lemma NextAgrees(starts: map<nat, Inflight>, h: seq<Event>, e: Event)
    requires Agrees(starts, h)
    ensures Agrees(Next(starts, e), h + [e])
  {
    var r := Next(starts, e);
    hide Tracked, RequeuedSince, MadeAt;
    forall key: nat
      ensures (key in r <==> Tracked(h + [e], key)) && (key in r ==> Remembers(r[key], h + [e], key))
    {
      if Foreign(e, key) {
        assert key in r <==> key in starts;
        assert key in r ==> r[key] == starts[key];
        if key in starts {
          ForeignKeeps(h, e, key, starts[key]);
        } else {
          ForeignKeeps(h, e, key, Inflight(Timing(0, 0, false), 0));
        }
      } else {
        OwnAgrees(starts, h, e);
      }
    }
  }

  lemma OwnAgrees(starts: map<nat, Inflight>, h: seq<Event>, e: Event)
    requires Agrees(starts, h) && !Foreign(e, e.key)
    ensures var r := Next(starts, e);
            (e.key in r <==> Tracked(h + [e], e.key)) && (e.key in r ==> Remembers(r[e.key], h + [e], e.key))
  {
    hide RequeuedSince, MadeAt;
    var key := e.key;
    assert (h + [e])[..|h|] == h;
    match e
    case Issue(_, _, _, _, room) =>
      if Resumes(starts, e) {
        ResumeRemembers(h, e, starts[key]);
      } else if room || key in starts {
        FreshRemembers(h, e, starts);
      }
    case Requeue(_, g) =>
      if key in starts {
        RequeueRemembers(h, key, g, starts[key]);
      }
    case Complete(_, _, _, _, _, _) =>
      FinalForgets(h, e);
  }

  function Starts(h: seq<Event>): map<nat, Inflight> {
    if |h| == 0 then map[] else Next(Starts(h[..|h| - 1]), h[|h| - 1])
  }

  lemma {:induction false} StartsAgree(h: seq<Event>)
    ensures Agrees(Starts(h), h)
    decreases |h|
  {
    if |h| > 0 {
      StartsAgree(h[..|h| - 1]);
      NextAgrees(Starts(h[..|h| - 1]), h[..|h| - 1], h[|h| - 1]);
      assert h[..|h| - 1] + [h[|h| - 1]] == h;
    }
  }

  datatype Outcome = Partial | Timed(latency: int, bytes: nat) | Unmatched | Bookkeeping

  predicate Usable(t: Timing, generation: nat) {
    t.start != 0 && t.generation == generation
  }

  function Verdict(starts: map<nat, Inflight>, e: Event): Outcome
    requires e.Complete?
  {
    if !Final(e) then Partial
    else if e.key !in starts then
      if e.remaining == 0 && e.completed == 0 && e.operation == OP_WRITE then Bookkeeping else Unmatched
    else if !Usable(starts[e.key].timing, e.generation) then Unmatched
    else Timed(e.now - starts[e.key].timing.start, starts[e.key].bytes)
  }

  /** The kernel clock is never zero. */
  predicate Clocked(h: seq<Event>) {
    forall e :: e in h && e.Issue? ==> e.now > 0
  }

  /** An entry is usable exactly when its request has an issue to measure from, and then it
      holds the time of that issue. */
  lemma UsableOrigin(v: Inflight, h: seq<Event>, key: nat, g: nat)
    requires Clocked(h) && Remembers(v, h, key)
    ensures Usable(v.timing, g) <==> exists j: nat :: Origin(h, key, g, j)
    ensures forall j: nat :: Origin(h, key, g, j) ==>
              j < |h| && h[j].Issue? && v.timing.start == h[j].now && v.bytes == h[j].bytes
  {
    hide Reaches;
    var i: nat :| MadeAt(v, h, key, i);
    var w := v.timing.generation;
    assert h[i] in h;
    forall j: nat | Origin(h, key, g, j) ensures g == w && j == i {
      SameGeneration(h, key, g, j, w, i);
    }
    if Usable(v.timing, g) {
      assert Origin(h, key, g, i);
    }
  }

  /** Over every trace: a latency is recorded exactly for a final completion whose request has
      an issue to measure from, and it is measured from that issue; a data-less write of an
      untracked address is bookkeeping; every other final completion is unmatched. */
  lemma VerdictExact(h: seq<Event>, e: Event)
    requires Clocked(h) && e.Complete?
    ensures var v := Verdict(Starts(h), e);
            (v.Partial? <==> !Final(e)) &&
            (v.Timed? <==> Final(e) && exists j: nat :: Origin(h, e.key, e.generation, j)) &&
            (v.Bookkeeping? <==> Final(e) && !Tracked(h, e.key) && e.remaining == 0 && e.completed == 0 &&
                                 e.operation == OP_WRITE) &&
            forall j: nat :: v.Timed? && Origin(h, e.key, e.generation, j) ==>
              j < |h| && h[j].Issue? && v == Timed(e.now - h[j].now, h[j].bytes)
  {
    hide Reaches, MadeAt;
    StartsAgree(h);
    if e.key in Starts(h) {
      UsableOrigin(Starts(h)[e.key], h, e.key, e.generation);
    } else {
      forall j: nat | Origin(h, e.key, e.generation, j) ensures Tracked(h, e.key) {
        ReachesTracked(h, e.key, e.generation, j);
      }
    }
  }

  // ----- counting -----

  function Outcomes(h: seq<Event>): seq<Outcome> {
    if |h| == 0 then []
    else
      var rest, e := h[..|h| - 1], h[|h| - 1];
      Outcomes(rest) + (if e.Complete? then [Verdict(Starts(rest), e)] else [])
  }

  function Finals(h: seq<Event>): nat {
    if |h| == 0 then 0 else Finals(h[..|h| - 1]) + if Final(h[|h| - 1]) then 1 else 0
  }

  function Latencies(os: seq<Outcome>): seq<int> {
    if |os| == 0 then []
    else Latencies(os[..|os| - 1]) + if os[|os| - 1].Timed? then [os[|os| - 1].latency] else []
  }

  function CountOf(os: seq<Outcome>, o: Outcome): nat {
    if |os| == 0 then 0 else CountOf(os[..|os| - 1], o) + if os[|os| - 1] == o then 1 else 0
  }

  function Bytes(os: seq<Outcome>): nat {
    if |os| == 0 then 0 else Bytes(os[..|os| - 1]) + if os[|os| - 1].Timed? then os[|os| - 1].bytes else 0
  }

  lemma OutcomesAppend(h: seq<Event>, e: Event)
    ensures Outcomes(h + [e]) == if e.Complete? then Outcomes(h) + [Verdict(Starts(h), e)] else Outcomes(h)
    ensures Starts(h + [e]) == Next(Starts(h), e)
    ensures Finals(h + [e]) == Finals(h) + if Final(e) then 1 else 0
  {
    assert (h + [e])[..|h|] == h;
    assert Outcomes(h) + [] == Outcomes(h);
  }

  lemma CountsAppend(os: seq<Outcome>, o: Outcome, x: Outcome)
    ensures CountOf(os + [x], o) == CountOf(os, o) + if x == o then 1 else 0
    ensures Latencies(os + [x]) == if x.Timed? then Latencies(os) + [x.latency] else Latencies(os)
    ensures Bytes(os + [x]) == Bytes(os) + if x.Timed? then x.bytes else 0
  {
    assert (os + [x])[..|os|] == os;
    assert Latencies(os) + [] == Latencies(os);
  }

  /** Every final completion is counted exactly once. */
  lemma {:induction false} CountedOnce(h: seq<Event>)
    ensures var os := Outcomes(h);
            |Latencies(os)| + CountOf(os, Unmatched) + CountOf(os, Bookkeeping) == Finals(h)
    decreases |h|
  {
    if |h| > 0 {
      var rest, e := h[..|h| - 1], h[|h| - 1];
      CountedOnce(rest);
      OutcomesAppend(rest, e);
      assert rest + [e] == h;
      if e.Complete? {
        var v := Verdict(Starts(rest), e);
        CountsAppend(Outcomes(rest), Unmatched, v);
        CountsAppend(Outcomes(rest), Bookkeeping, v);
      }
    }
  }

  function AtLeast(ls: seq<int>, limit: int): nat {
    if |ls| == 0 then 0 else AtLeast(ls[..|ls| - 1], limit) + if ls[|ls| - 1] >= limit then 1 else 0
  }

  lemma AtLeastAppend(ls: seq<int>, x: int, limit: int)
    ensures AtLeast(ls + [x], limit) == AtLeast(ls, limit) + if x >= limit then 1 else 0
  {
    assert (ls + [x])[..|ls|] == ls;
  }

  /** What one more outcome adds to every counter. */
  lemma CountsAfter(os: seq<Outcome>, x: Outcome, limit: nat, stricter: nat)
    ensures var r := os + [x];
            |Latencies(r)| == |Latencies(os)| + (if x.Timed? then 1 else 0) &&
            Bytes(r) == Bytes(os) + (if x.Timed? then x.bytes else 0) &&
            CountOf(r, Unmatched) == CountOf(os, Unmatched) + (if x.Unmatched? then 1 else 0) &&
            CountOf(r, Bookkeeping) == CountOf(os, Bookkeeping) + (if x.Bookkeeping? then 1 else 0) &&
            AtLeast(Latencies(r), limit) ==
              AtLeast(Latencies(os), limit) + (if x.Timed? && x.latency >= limit then 1 else 0) &&
            AtLeast(Latencies(r), stricter) ==
              AtLeast(Latencies(os), stricter) + (if x.Timed? && x.latency >= stricter then 1 else 0)
  {
    CountsAppend(os, Unmatched, x);
    CountsAppend(os, Bookkeeping, x);
    if x.Timed? {
      AtLeastAppend(Latencies(os), x.latency, limit);
      AtLeastAppend(Latencies(os), x.latency, stricter);
    }
  }

  /** The kernel program: a map, counters, and the trace they came from. */
  class Tracker {
    const threshold: nat
    const criticalThreshold: nat
    var starts: map<nat, Inflight>
    var count: nat
    var anomalies: nat
    var critical: nat
    var bytes: nat
    var unmatched: nat
    var bookkeeping: nat
    var trackingFailures: nat
    ghost var trace: seq<Event>

    /** A critical latency passes both thresholds. */
    function Stricter(): (r: nat)
      ensures threshold <= r && criticalThreshold <= r && (r == threshold || r == criticalThreshold)
    {
      if threshold >= criticalThreshold then threshold else criticalThreshold
    }

    ghost predicate Valid()
      reads this
    {
      var os := Outcomes(trace);
      starts == Starts(trace) && count == |Latencies(os)| && bytes == Bytes(os) &&
      unmatched == CountOf(os, Unmatched) &&
      bookkeeping == CountOf(os, Bookkeeping) && anomalies == AtLeast(Latencies(os), threshold) &&
      critical == AtLeast(Latencies(os), Stricter())
    }

    constructor (threshold: nat, criticalThreshold: nat)
      ensures Valid() && trace == []
    {
      this.threshold, this.criticalThreshold := threshold, criticalThreshold;
      starts, trace := map[], [];
      count, anomalies, critical, bytes := 0, 0, 0, 0;
      unmatched, bookkeeping, trackingFailures := 0, 0, 0;
    }

    /** `room` tells whether a new key fits the map; an existing key can always be replaced. */
    method Issue(key: nat, generation: nat, now: nat, size: nat, room: bool)
      requires Valid()
      modifies this
      ensures Valid() && trace == old(trace) + [Event.Issue(key, generation, now, size, room)]
      ensures trackingFailures == old(trackingFailures) + if key in old(starts) || room then 0 else 1
    {
      ghost var e := Event.Issue(key, generation, now, size, room);
      OutcomesAppend(trace, e);
      if key in starts && starts[key].timing.requeued && starts[key].timing.generation == generation {
        starts := starts[key := starts[key].(timing := starts[key].timing.(requeued := false))];
      } else if key in starts || room {
        starts := starts[key := Inflight(Timing(now, generation, false), size)];
      } else {
        trackingFailures := trackingFailures + 1;
      }
      trace := trace + [e];
    }

    method Requeue(key: nat, generation: nat)
      requires Valid()
      modifies this
      ensures Valid() && trace == old(trace) + [Event.Requeue(key, generation)]
    {
      OutcomesAppend(trace, Event.Requeue(key, generation));
      if key in starts && starts[key].timing.generation == generation {
        var t := starts[key].timing.(requeued := true);
        if generation == 0 {
          t := t.(start := 0);
        }
        starts := starts[key := starts[key].(timing := t)];
      }
      trace := trace + [Event.Requeue(key, generation)];
    }

    method Complete(key: nat, generation: nat, now: nat, remaining: nat, completed: nat, operation: nat)
      returns (outcome: Outcome)
      requires Valid()
      modifies this
      ensures Valid()
      ensures var e := Event.Complete(key, generation, now, remaining, completed, operation);
              trace == old(trace) + [e] && outcome == Verdict(Starts(old(trace)), e)
    {
      hide Outcomes, Latencies, CountOf, AtLeast, Bytes, Starts;
      ghost var e := Event.Complete(key, generation, now, remaining, completed, operation);
      OutcomesAppend(trace, e);
      CountsAfter(Outcomes(trace), Verdict(starts, e), threshold, Stricter());
      trace := trace + [e];
      if completed < remaining {
        outcome := Partial;
      } else if key !in starts {
        if remaining == 0 && completed == 0 && operation == 1 {
          bookkeeping := bookkeeping + 1;
          outcome := Bookkeeping;
        } else {
          unmatched := unmatched + 1;
          outcome := Unmatched;
        }
      } else {
        outcome := Finish(now, key, generation);
        starts := starts - {key};
      }
    }

    /** The counters of a completion whose address has an entry. */
    method Finish(now: nat, key: nat, generation: nat) returns (outcome: Outcome)
      requires key in starts
      modifies `count, `anomalies, `critical, `bytes, `unmatched
      ensures outcome == if Usable(starts[key].timing, generation)
                         then Timed(now - starts[key].timing.start, starts[key].bytes)
                         else Unmatched
      ensures outcome.Timed? ==>
                count == old(count) + 1 && unmatched == old(unmatched) && bytes == old(bytes) + starts[key].bytes &&
                anomalies == old(anomalies) + (if outcome.latency >= threshold then 1 else 0) &&
                critical == old(critical) +
                            if outcome.latency >= threshold && outcome.latency >= criticalThreshold then 1 else 0
      ensures outcome.Unmatched? ==>
                unmatched == old(unmatched) + 1 && count == old(count) && anomalies == old(anomalies) &&
                critical == old(critical) && bytes == old(bytes)
    {
      var v := starts[key];
      if v.timing.start == 0 || v.timing.generation != generation {
        unmatched := unmatched + 1;
        return Unmatched;
      }
      var latency := now - v.timing.start;
      count := count + 1;
      bytes := bytes + v.bytes;
      if latency >= threshold {
        anomalies := anomalies + 1;
        if latency >= criticalThreshold {
          critical := critical + 1;
        }
      }
      return Timed(latency, v.bytes);
    }
  }
}
