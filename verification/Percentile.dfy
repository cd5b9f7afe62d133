/** Latency buckets of the kernel programs and the percentile bound the analyzer reports. */
module Percentile {
  import opened Telemetry

  const MIN_NS: nat := 1_000_000
  const LAST: nat := HISTOGRAM_BUCKETS - 1

  /** The upper bound of bucket `i`; the last bucket has none. */
  function Limit(i: nat): (r: nat)
    ensures r >= MIN_NS
  {
    if i == 0 then MIN_NS else 2 * Limit(i - 1)
  }

  /** The bounds double from one millisecond to 512 of them. */
  lemma LimitDoubles(i: nat)
    ensures Limit(0) == 1_000_000 && Limit(i + 1) == 2 * Limit(i) && Limit(LAST - 1) == 512_000_000
  {
    assert Limit(1) == 2_000_000 && Limit(2) == 4_000_000 && Limit(3) == 8_000_000 && Limit(4) == 16_000_000;
    assert Limit(5) == 32_000_000 && Limit(6) == 64_000_000 && Limit(7) == 128_000_000;
  }

  lemma {:induction false} LimitGrows(i: nat, j: nat)
    requires i <= j
    ensures Limit(i) <= Limit(j)
  {
    if i < j {
      LimitGrows(i, j - 1);
    }
  }

  /** The one bucket whose range holds a latency. */
  predicate InBucket(ns: nat, b: nat) {
    b <= LAST && (b < LAST ==> ns < Limit(b)) && (b > 0 ==> Limit(b - 1) <= ns)
  }

  lemma OneBucket(ns: nat, a: nat, b: nat)
    requires InBucket(ns, a) && InBucket(ns, b)
    ensures a == b
  {
    if a < b {
      LimitGrows(a, b - 1);
    } else if b < a {
      LimitGrows(b, a - 1);
    }
  }

  function BucketFrom(ns: nat, b: nat): (r: nat)
    requires b <= LAST && (b > 0 ==> Limit(b - 1) <= ns)
    ensures InBucket(ns, r)
    decreases LAST - b
  {
    if b == LAST || ns < Limit(b) then b else BucketFrom(ns, b + 1)
  }

  function BucketOf(ns: nat): (r: nat)
    ensures InBucket(ns, r)
  {
    BucketFrom(ns, 0)
  }

  function CountIn(samples: seq<nat>, b: nat): nat {
    if |samples| == 0 then 0
    else CountIn(samples[..|samples| - 1], b) + if BucketOf(samples[|samples| - 1]) == b then 1 else 0
  }

  function CountBelow(samples: seq<nat>, bound: nat): nat {
    if |samples| == 0 then 0
    else CountBelow(samples[..|samples| - 1], bound) + if samples[|samples| - 1] < bound then 1 else 0
  }

  function Buckets(samples: seq<nat>): (h: seq<nat>)
    ensures |h| == HISTOGRAM_BUCKETS
  {
    seq(HISTOGRAM_BUCKETS, b requires 0 <= b => CountIn(samples, b))
  }

  /** The kernel's histogram: one atomic increment per observation. */
  class Histogram {
    var buckets: array<nat>
    var count: nat
    ghost var samples: seq<nat>

    ghost predicate Valid()
      reads this, buckets
    {
      buckets[..] == Buckets(samples) && count == |samples|
    }

    constructor ()
      ensures Valid() && samples == [] && fresh(buckets)
    {
      buckets := new nat[HISTOGRAM_BUCKETS](_ => 0);
      count, samples := 0, [];
    }

    method Observe(ns: nat)
      requires Valid()
      modifies this`count, this`samples, buckets
      ensures Valid() && samples == old(samples) + [ns]
    {
      var bucket := Classify(ns);
      BucketsAppend(samples, ns);
      buckets[bucket] := buckets[bucket] + 1;
      count := count + 1;
      samples := samples + [ns];
    }
  }

  /** Every limit passed moves the bucket up; the loop ends in the latency's own bucket. */
  method Classify(ns: nat) returns (bucket: nat)
    ensures bucket == BucketOf(ns) <= LAST
  {
    bucket := 0;
    var limit := MIN_NS;
    for i := 0 to LAST
      invariant limit == Limit(i)
      invariant bucket <= i && (bucket > 0 ==> Limit(bucket - 1) <= ns)
      invariant bucket < i ==> ns < Limit(bucket)
    {
      LimitGrows(bucket, i);
      if ns >= limit {
        bucket := i + 1;
      }
      limit := limit * 2;
    }
    OneBucket(ns, bucket, BucketOf(ns));
  }

  lemma BucketsAppend(samples: seq<nat>, ns: nat)
    ensures Buckets(samples + [ns]) == Buckets(samples)[BucketOf(ns) := Buckets(samples)[BucketOf(ns)] + 1]
  {
    assert (samples + [ns])[..|samples|] == samples;
  }

  // ----- percentiles -----

  function Sum(h: seq<nat>): nat {
    if |h| == 0 then 0 else Sum(h[..|h| - 1]) + h[|h| - 1]
  }

  lemma {:induction false} SumGrows(h: seq<nat>, n: nat)
    requires n <= |h|
    ensures Sum(h[..n]) <= Sum(h)
    decreases |h|
  {
    if n == |h| {
      assert h[..n] == h;
    } else {
      SumGrows(h[..|h| - 1], n);
      assert h[..|h| - 1][..n] == h[..n];
    }
  }

  datatype Bound = NoData | Below(ns: nat) | AtLeast(ns: nat)

  /** The rank asked for: a p-th part of the count, rounded up. */
  function Rank(count: nat, p: nat): nat {
    (count * p + 99) / 100
  }

  /** Taking hundreds apart first gives the same rank and never leaves 64 bits. */
  lemma TargetIsRank(count: nat, p: nat)
    requires 1 <= p <= 100 && count < WORD_SIZE
    ensures count / 100 * p + (count % 100 * p + 99) / 100 == Rank(count, p)
    ensures count > 0 ==> 1 <= Rank(count, p) <= count
    ensures count / 100 * p < WORD_SIZE && count % 100 * p + 99 < WORD_SIZE
  {
    var q, r := count / 100, count % 100;
    assert count == 100 * q + r;
    Distribute(q, r, p);
    AtMostHundred(q, p);
    AtMostHundred(r, p);
    Split(q * p, r * p);
    if count > 0 {
      AtMostHundred(count, p);
      WithinCount(count * p, count);
    }
  }

  lemma Distribute(q: nat, r: nat, p: nat)
    ensures (100 * q + r) * p == 100 * (q * p) + r * p
  {
  }

  lemma AtMostHundred(x: nat, p: nat)
    requires 1 <= p <= 100
    ensures x <= x * p <= 100 * x
  {
  }

  lemma Split(a: nat, b: nat)
    ensures (100 * a + b + 99) / 100 == a + (b + 99) / 100
  {
  }

  lemma WithinCount(x: nat, count: nat)
    requires 0 < count <= x <= 100 * count
    ensures 1 <= (x + 99) / 100 <= count
  {
  }

  /** What the report says of a histogram: the first bucket that brings the running count to
      the rank, by its upper bound, or by its lower bound when it is the last. */
  predicate Reports(h: seq<nat>, p: nat, r: Bound)
    requires |h| == HISTOGRAM_BUCKETS
  {
    var rank := Rank(Sum(h), p);
    match r
    case NoData => Sum(h) == 0
    case Below(ns) => Sum(h) > 0 && exists i :: 0 <= i < LAST && ns == Limit(i) && Sum(h[..i]) < rank <= Sum(h[..i + 1])
    case AtLeast(ns) => Sum(h) > 0 && ns == Limit(LAST - 1) && Sum(h[..LAST]) < rank
  }

  /** The running count after the first `i` buckets, as a 64-bit counter holds it. */
  function Running(h: seq<Word>, i: nat): Word
    requires i <= |h|
  {
    Sum(h[..i]) % WORD_SIZE
  }

  /** The bucket at which a 64-bit running count first reaches the rank of the 64-bit total. */
  predicate Reached(h: seq<Word>, p: nat, i: nat)
    requires |h| == HISTOGRAM_BUCKETS && i < HISTOGRAM_BUCKETS
  {
    var rank := Rank(Running(h, HISTOGRAM_BUCKETS), p);
    rank <= Running(h, i + 1) && forall j :: 1 <= j <= i ==> Running(h, j) < rank
  }

  /** The report when counts wrap at 64 bits. */
  predicate ReportsWrapped(h: seq<Word>, p: nat, r: Bound)
    requires |h| == HISTOGRAM_BUCKETS
  {
    match r
    case NoData => Running(h, HISTOGRAM_BUCKETS) == 0
    case Below(ns) =>
      Running(h, HISTOGRAM_BUCKETS) > 0 && exists i :: 0 <= i < LAST && ns == Limit(i) && Reached(h, p, i)
    case AtLeast(ns) => Running(h, HISTOGRAM_BUCKETS) > 0 && ns == Limit(LAST - 1) && Reached(h, p, LAST)
  }

  lemma RunningNext(h: seq<Word>, i: nat)
    requires i < |h|
    ensures Running(h, i + 1) == Add(Running(h, i), h[i])
  {
    assert h[..i + 1] == h[..i] + [h[i]];
    assert (h[..i] + [h[i]])[..i] == h[..i];
    ModAdd(Sum(h[..i]), h[i]);
  }

  lemma ModAdd(a: nat, b: Word)
    ensures (a + b) % WORD_SIZE == (a % WORD_SIZE + b) % WORD_SIZE
  {
    assert a == WORD_SIZE * (a / WORD_SIZE) + a % WORD_SIZE;
  }

  /** A total that fits 64 bits leaves nothing to wrap. */
  lemma NothingWraps(h: seq<Word>, p: nat, r: Bound)
    requires |h| == HISTOGRAM_BUCKETS && Sum(h) < WORD_SIZE && 1 <= p <= 100 && ReportsWrapped(h, p, r)
    ensures Reports(h, p, r)
  {
    hide Limit, Sum, Rank;
    assert h[..HISTOGRAM_BUCKETS] == h;
    forall i | 0 <= i <= HISTOGRAM_BUCKETS ensures Running(h, i) == Sum(h[..i]) {
      SumGrows(h, i);
    }
    TargetIsRank(Sum(h), p);
    assert Sum(h[..0]) == 0 by { EmptySum(h); }
    if r.Below? {
      var i :| 0 <= i < LAST && r.ns == Limit(i) && Reached(h, p, i);
      assert i > 0 ==> Running(h, i) < Rank(Sum(h), p);
    } else if r.AtLeast? {
      assert Running(h, LAST) < Rank(Sum(h), p);
    }
  }

  lemma EmptySum(h: seq<Word>)
    ensures Sum(h[..0]) == 0
  {
  }

  /** No data is reported exactly when the 64-bit total is zero. */
  lemma NoDataExactly(h: seq<Word>, p: nat, r: Bound)
    requires |h| == HISTOGRAM_BUCKETS && ReportsWrapped(h, p, r)
    ensures r.NoData? <==> Sum(h) % WORD_SIZE == 0
  {
    assert h[..HISTOGRAM_BUCKETS] == h;
  }

  /** A total of exactly 2^64 reads as an empty histogram. */
  lemma WrappedTotalHidesAll(h: seq<Word>, p: nat, r: Bound)
    requires |h| == HISTOGRAM_BUCKETS && Sum(h) == WORD_SIZE && ReportsWrapped(h, p, r)
    ensures r.NoData? && !Reports(h, p, r)
  {
    assert h[..HISTOGRAM_BUCKETS] == h;
  }

  /** Finds the bound in 64-bit arithmetic; there is always one, and it is the true one unless
      the histogram counts 2^64 observations or more. */
  method Percentile(h: seq<Word>, p: nat) returns (r: Bound)
    requires |h| == HISTOGRAM_BUCKETS && 1 <= p <= 100
    ensures ReportsWrapped(h, p, r) && (r.NoData? <==> Sum(h) % WORD_SIZE == 0)
    ensures Sum(h) < WORD_SIZE ==> Reports(h, p, r)
  {
    hide Limit, Sum, Rank, Reports;
    EmptySum(h);
    var count: Word := 0;
    for i := 0 to HISTOGRAM_BUCKETS
      invariant count == Running(h, i)
    {
      RunningNext(h, i);
      count := Add(count, h[i]);
    }
    if count == 0 {
      r := NoData;
    } else {
      TargetIsRank(count, p);
      r := Search(h, count, p, count / 100 * p + (count % 100 * p + 99) / 100);
    }
    NoDataExactly(h, p, r);
    if Sum(h) < WORD_SIZE {
      NothingWraps(h, p, r);
    }
  }

  /** The first bucket that brings the running count to the target. */
  method Search(h: seq<Word>, count: Word, p: nat, target: nat) returns (r: Bound)
    requires |h| == HISTOGRAM_BUCKETS && count == Running(h, HISTOGRAM_BUCKETS) && 1 <= target <= count
    requires target == Rank(count, p)
    ensures ReportsWrapped(h, p, r)
  {
    hide Sum, Rank;
    EmptySum(h);
    var n: Word := 0;
    var i, limit := 0, MIN_NS;
    while i < HISTOGRAM_BUCKETS
      invariant i <= HISTOGRAM_BUCKETS && n == Running(h, i) && n < target && limit == Limit(i)
      invariant forall j :: 1 <= j <= i ==> Running(h, j) < target
    {
      RunningNext(h, i);
      n := Add(n, h[i]);
      if n >= target {
        assert Reached(h, p, i);
        return if i == LAST then AtLeast(Limit(i - 1)) else Below(limit);
      }
      i, limit := i + 1, 2 * limit;
    }
    return NoData;
  }

  /** The first buckets hold exactly the observations below their bound. */
  lemma {:induction false} PrefixBelow(samples: seq<nat>, i: nat)
    requires i <= LAST
    ensures Sum(Buckets(samples)[..i]) == if i == 0 then 0 else CountBelow(samples, Limit(i - 1))
    decreases |samples|
  {
    if |samples| == 0 {
      Zeros(Buckets(samples)[..i]);
    } else {
      var rest, s := samples[..|samples| - 1], samples[|samples| - 1];
      PrefixBelow(rest, i);
      OneMore(Buckets(rest), Buckets(samples), BucketOf(s), i);
      if i > 0 {
        if BucketOf(s) < i {
          LimitGrows(BucketOf(s), i - 1);
        } else {
          LimitGrows(i - 1, BucketOf(s) - 1);
        }
      }
    }
  }

  lemma {:induction false} Zeros(h: seq<nat>)
    requires forall k :: 0 <= k < |h| ==> h[k] == 0
    ensures Sum(h) == 0
  {
    if |h| > 0 {
      Zeros(h[..|h| - 1]);
    }
  }

  lemma {:induction false} OneMore(g: seq<nat>, h: seq<nat>, b: nat, i: nat)
    requires |g| == |h| && i <= |g| && b < |g|
    requires forall k :: 0 <= k < |g| ==> h[k] == g[k] + if k == b then 1 else 0
    ensures Sum(h[..i]) == Sum(g[..i]) + if b < i then 1 else 0
  {
    if i > 0 {
      assert g[..i][..i - 1] == g[..i - 1] && h[..i][..i - 1] == h[..i - 1];
      OneMore(g, h, b, i - 1);
    }
  }

  lemma {:induction false} AllBucketed(samples: seq<nat>)
    ensures Sum(Buckets(samples)) == |samples|
    decreases |samples|
  {
    if |samples| == 0 {
      Zeros(Buckets(samples));
    } else {
      var rest, s := samples[..|samples| - 1], samples[|samples| - 1];
      AllBucketed(rest);
      OneMore(Buckets(rest), Buckets(samples), BucketOf(s), HISTOGRAM_BUCKETS);
      assert Buckets(samples)[..HISTOGRAM_BUCKETS] == Buckets(samples);
      assert Buckets(rest)[..HISTOGRAM_BUCKETS] == Buckets(rest);
    }
  }

  /** For every set of latencies and every percentile: at least the rank's worth of observations
      lie below a reported upper bound and fewer below the next lower bucket bound; a reported
      lower bound is 512 ms and fewer than the rank lie below it. */
  lemma PercentileSound(samples: seq<nat>, p: nat, r: Bound)
    requires 1 <= p <= 100 && Reports(Buckets(samples), p, r)
    ensures var rank := Rank(|samples|, p);
            (r.NoData? <==> |samples| == 0) &&
            (r.Below? ==>
               CountBelow(samples, r.ns) >= rank &&
               exists i :: 0 <= i < LAST && r.ns == Limit(i) && (i > 0 ==> CountBelow(samples, Limit(i - 1)) < rank)) &&
            (r.AtLeast? ==> r.ns == 512_000_000 && CountBelow(samples, r.ns) < rank)
  {
    hide Buckets, CountBelow, Limit, Sum, Rank;
    AllBucketed(samples);
    if r.Below? {
      BelowSound(samples, p, r.ns);
    } else if r.AtLeast? {
      PrefixBelow(samples, LAST);
      LastLimit();
    }
  }

  lemma BelowSound(samples: seq<nat>, p: nat, ns: nat)
    requires Reports(Buckets(samples), p, Below(ns))
    ensures CountBelow(samples, ns) >= Rank(Sum(Buckets(samples)), p)
    ensures exists i :: 0 <= i < LAST && ns == Limit(i) &&
                        (i > 0 ==> CountBelow(samples, Limit(i - 1)) < Rank(Sum(Buckets(samples)), p))
  {
    hide Buckets, CountBelow, Limit, Sum, Rank;
    var h := Buckets(samples);
    var i :| 0 <= i < LAST && ns == Limit(i) && Sum(h[..i]) < Rank(Sum(h), p) <= Sum(h[..i + 1]);
    PrefixBelow(samples, i + 1);
    PrefixBelow(samples, i);
  }

  lemma LastLimit()
    ensures Limit(LAST - 1) == 512_000_000
  {
    assert Limit(3) == 8 * MIN_NS;
    assert Limit(6) == 64 * MIN_NS;
  }
}
