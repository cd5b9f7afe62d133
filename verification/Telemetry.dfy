/** The durable observations shared by every component: detail events, aggregate
    metrics and the counter vector a metric carries. */
module Telemetry {

  // Counters are unsigned 64-bit words; sums wrap.
  const WORD_SIZE: int := 0x1_0000_0000_0000_0000
  type Word = w: int | 0 <= w < WORD_SIZE

  const HISTOGRAM_BUCKETS: nat := 11

  // A counter vector holds the latency buckets and then, in this order, count, anomalies, critical
  // latencies, bytes, retransmits, resets, bookkeeping completions, ring failures, suppressed details,
  // detail failures, tracking failures, unmatched completions and decode failures. Named are the
  // slots that a rule reads on their own.
  const COUNT: nat := 11
  const CRITICAL: nat := 13
  const BYTES: nat := 14
  const SLOTS: nat := 24

  type Tally = t: seq<Word> | |t| == SLOTS witness seq(SLOTS, i => 0)

  function Zero(): Tally {
    seq(SLOTS, i => 0)
  }

  function Add(a: Word, b: Word): (r: Word)
    ensures r == (a + b) % WORD_SIZE
  {
    if a + b < WORD_SIZE then a + b else a + b - WORD_SIZE
  }

  function Plus(x: Tally, y: Tally): (r: Tally)
  {
    seq(SLOTS, i requires 0 <= i < SLOTS => Add(x[i], y[i]))
  }

  /** Wrapping vector addition is a commutative monoid. */
  lemma PlusLaws(x: Tally, y: Tally, z: Tally)
    ensures Plus(Plus(x, y), z) == Plus(x, Plus(y, z))
    ensures Plus(x, y) == Plus(y, x)
    ensures Plus(Zero(), x) == x == Plus(x, Zero())
  {
    forall i | 0 <= i < SLOTS
      ensures Add(Add(x[i], y[i]), z[i]) == Add(x[i], Add(y[i], z[i]))
    {
      AddAssociates(x[i], y[i], z[i]);
    }
    assert Plus(Plus(x, y), z) == Plus(x, Plus(y, z));
    assert Plus(x, y) == Plus(y, x);
    assert Plus(Zero(), x) == x;
    assert Plus(x, Zero()) == x;
  }

  lemma AddAssociates(a: Word, b: Word, c: Word)
    ensures Add(Add(a, b), c) == Add(a, Add(b, c))
  {
  }

  const BLOCK_IO := "block_io"
  const SCHEDULER := "scheduler"
  const TCP := "tcp"
  const OOM := "oom"
  const FAMILIES: seq<string> := [BLOCK_IO, SCHEDULER, TCP, OOM]

  /** The strings of a detail other than its type. */
  datatype Text = Text(comm: string, operation: string, sourceIP: string, destinationIP: string,
                       cgroupPath: string, tcpDirection: string, socketContext: string, endpointSource: string)

  datatype Event = Event(mono: nat, kind: string, pid: nat, tgid: nat, processStart: nat,
                         cgroup: nat, latency: nat, text: Text)

  datatype Metric = Metric(family: string, start: nat, end: nat, tally: Tally)

  function StringCost(e: Event): (n: nat)
  {
    |e.kind| + |e.text.comm| + |e.text.operation| + |e.text.sourceIP| + |e.text.destinationIP| +
    |e.text.cgroupPath| + |e.text.tcpDirection| + |e.text.socketContext| + |e.text.endpointSource|
  }

  datatype Option<+T> = None | Some(value: T)

  function Min(a: int, b: int): int {
    if a <= b then a else b
  }

  function Max(a: int, b: int): int {
    if a >= b then a else b
  }

  /** Distinct elements of a finite set are no more than the set. */
  lemma {:induction false} DistinctWithin<T>(xs: seq<T>, all: set<T>)
    requires forall i, j :: 0 <= i < j < |xs| ==> xs[i] != xs[j]
    requires forall x :: x in xs ==> x in all
    ensures |xs| <= |all|
  {
    if |xs| > 0 {
      DistinctWithin(xs[1..], all - {xs[0]});
    }
  }

  /** Replacing one element of a multiset, and replacing it behind another. */
  lemma Replaces<T>(xs: multiset<T>, a: T, b: T, last: T)
    ensures xs + multiset{b} == xs + multiset{a} - multiset{a} + multiset{b}
    ensures a in xs ==>
              xs - multiset{a} + multiset{b} + multiset{last} == xs + multiset{last} - multiset{a} + multiset{b}
  {
  }
}
