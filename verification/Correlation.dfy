/** The coincidence search of the analyzer: a sliding one-second window over a sorted
    timeline, two indexes and an expiry queue that is compacted in place. */
module Correlation {
  import opened Telemetry

  const SECOND: nat := 1_000_000_000

  datatype Process = Process(tgid: nat, start: nat)

  // ----- the quadratic definition -----

  predicate Known(e: Event) {
    e.tgid != 0 && e.processStart != 0
  }

  function ProcessOf(e: Event): Process {
    Process(e.tgid, e.processStart)
  }

  predicate Shared(e: Event) {
    e.cgroup > 1
  }

  predicate Opposite(a: Event, b: Event) {
    (a.kind == BLOCK_IO) != (b.kind == BLOCK_IO)
  }

  predicate Near(a: Event, b: Event) {
    b.mono - a.mono <= SECOND
  }

  predicate ByProcess(a: Event, b: Event) {
    Opposite(a, b) && Near(a, b) && Known(a) && Known(b) && ProcessOf(a) == ProcessOf(b)
  }

  predicate ByCgroup(a: Event, b: Event) {
    Opposite(a, b) && Near(a, b) && Shared(a) && Shared(b) && a.cgroup == b.cgroup
  }

  /** Exactly one block event, at most a second apart, one known process or cgroup in common. */
  predicate Coincide(t: seq<Event>, j: nat, i: nat) {
    j < i < |t| && (ByProcess(t[j], t[i]) || ByCgroup(t[j], t[i]))
  }

  predicate Sorted(t: seq<Event>) {
    forall a, b :: 0 <= a <= b < |t| ==> t[a].mono <= t[b].mono
  }

  /** The latest event before `n` that shares the process of event `i`, or -1. */
  function LastProcess(t: seq<Event>, n: nat, i: nat): (j: int)
    requires n <= i < |t|
    ensures -1 <= j < n
    ensures 0 <= j ==> ByProcess(t[j], t[i])
    ensures forall k :: j < k < n ==> !ByProcess(t[k], t[i])
  {
    if n == 0 then -1 else if ByProcess(t[n - 1], t[i]) then n - 1 else LastProcess(t, n - 1, i)
  }

  function LastCgroup(t: seq<Event>, n: nat, i: nat): (j: int)
    requires n <= i < |t|
    ensures -1 <= j < n
    ensures 0 <= j ==> ByCgroup(t[j], t[i])
    ensures forall k :: j < k < n ==> !ByCgroup(t[k], t[i])
  {
    if n == 0 then -1 else if ByCgroup(t[n - 1], t[i]) then n - 1 else LastCgroup(t, n - 1, i)
  }

  /** The earlier of two matches; -1 is no match. */
  function Earlier(p: int, c: int): int {
    if c >= 0 && (p < 0 || c < p) then c else p
  }

  function Partner(t: seq<Event>, i: nat): int
    requires i < |t|
  {
    Earlier(LastProcess(t, i, i), LastCgroup(t, i, i))
  }

  datatype Pair = Pair(first: nat, second: nat)

  /** The first event from `i` on that has a partner, by looking at every earlier event. */
  function First(t: seq<Event>, i: nat): Option<Pair>
    requires i <= |t|
    decreases |t| - i
  {
    if i == |t| then None
    else if Partner(t, i) >= 0 then Some(Pair(Partner(t, i), i))
    else First(t, i + 1)
  }

  /** An event has a partner exactly when it coincides with something before it. */
  lemma PartnerExists(t: seq<Event>, i: nat)
    requires i < |t|
    ensures Partner(t, i) >= 0 <==> exists j :: Coincide(t, j, i)
    ensures Partner(t, i) >= 0 ==> Coincide(t, Partner(t, i), i)
  {
    if j: nat :| Coincide(t, j, i) {
      assert ByProcess(t[j], t[i]) ==> LastProcess(t, i, i) >= j;
      assert ByCgroup(t[j], t[i]) ==> LastCgroup(t, i, i) >= j;
    }
    if Partner(t, i) >= 0 {
      assert Coincide(t, Partner(t, i), i);
    }
  }

  /** The search succeeds exactly when some pair coincides, and then its later event is the
      least that any coinciding pair has. */
  lemma {:induction false} FirstExact(t: seq<Event>, i: nat)
    requires i <= |t|
    ensures First(t, i).Some? <==> exists a, b :: i <= b && Coincide(t, a, b)
    ensures First(t, i).Some? ==>
              var p := First(t, i).value;
              i <= p.second && Coincide(t, p.first, p.second) &&
              forall a, b :: i <= b < p.second ==> !Coincide(t, a, b)
    decreases |t| - i
  {
    if i < |t| {
      PartnerExists(t, i);
      FirstExact(t, i + 1);
      if Partner(t, i) < 0 {
        forall a, b | i <= b && Coincide(t, a, b) ensures i + 1 <= b {
          assert b == i ==> exists j :: Coincide(t, j, i);
        }
      }
    }
  }

  // ----- what an answer means -----

  /** One block event and one other, the first at most a second earlier, of one known process. */
  predicate SameProcess(a: Event, b: Event) {
    (a.kind == "block_io" <==> b.kind != "block_io") && b.mono <= a.mono + 1_000_000_000 &&
    a.tgid == b.tgid != 0 && a.processStart == b.processStart != 0
  }

  /** One block event and one other, the first at most a second earlier, of one cgroup but the root. */
  predicate SameCgroup(a: Event, b: Event) {
    (a.kind == "block_io" <==> b.kind != "block_io") && b.mono <= a.mono + 1_000_000_000 &&
    a.cgroup == b.cgroup > 1
  }

  /** No event from `j` on and before `i` but `j` itself shares the process of event `i`. */
  predicate LatestProcess(t: seq<Event>, j: nat, i: nat) {
    j < i < |t| && SameProcess(t[j], t[i]) && forall k :: j < k < i ==> !SameProcess(t[k], t[i])
  }

  predicate LatestCgroup(t: seq<Event>, j: nat, i: nat) {
    j < i < |t| && SameCgroup(t[j], t[i]) && forall k :: j < k < i ==> !SameCgroup(t[k], t[i])
  }

  /** The pair reported for event `i`: its latest process match or its latest cgroup match, and
      neither kind has its latest match before it. */
  predicate Matches(t: seq<Event>, j: nat, i: nat) {
    (LatestProcess(t, j, i) || LatestCgroup(t, j, i)) &&
    (forall k: nat :: LatestProcess(t, k, i) ==> j <= k) && (forall k: nat :: LatestCgroup(t, k, i) ==> j <= k)
  }

  /** No event before `i` shares a process or a cgroup with it. */
  predicate Alone(t: seq<Event>, i: nat)
    requires i < |t|
  {
    forall k :: 0 <= k < i ==> !SameProcess(t[k], t[i]) && !SameCgroup(t[k], t[i])
  }

  /** The answer to the search, in terms of the events alone. */
  predicate Answers(t: seq<Event>, r: Option<Pair>) {
    match r
    case None => forall i :: 0 <= i < |t| ==> Alone(t, i)
    case Some(p) =>
      p.second < |t| && Matches(t, p.first, p.second) && forall i :: 0 <= i < p.second ==> Alone(t, i)
  }

  lemma MatchesMean(t: seq<Event>, j: nat, i: nat)
    requires Sorted(t) && j < i < |t|
    ensures ByProcess(t[j], t[i]) <==> SameProcess(t[j], t[i])
    ensures ByCgroup(t[j], t[i]) <==> SameCgroup(t[j], t[i])
  {
  }

  /** The partner of an event, if it has one, is the earlier of its two latest matches. */
  lemma PartnerMatches(t: seq<Event>, i: nat)
    requires Sorted(t) && i < |t|
    ensures if Partner(t, i) < 0 then Alone(t, i) else Matches(t, Partner(t, i), i)
  {
    hide Sorted, ByProcess, ByCgroup, SameProcess, SameCgroup;
    var p, c := LastProcess(t, i, i), LastCgroup(t, i, i);
    forall k | 0 <= k < i
      ensures ByProcess(t[k], t[i]) <==> SameProcess(t[k], t[i])
      ensures ByCgroup(t[k], t[i]) <==> SameCgroup(t[k], t[i])
    {
      MatchesMean(t, k, i);
    }
    assert p >= 0 ==> LatestProcess(t, p, i);
    assert c >= 0 ==> LatestCgroup(t, c, i);
    assert forall k: nat :: LatestProcess(t, k, i) ==> k == p;
    assert forall k: nat :: LatestCgroup(t, k, i) ==> k == c;
  }

  /** The quadratic search answers. */
  lemma {:induction false} FirstAnswers(t: seq<Event>, i: nat)
    requires Sorted(t) && i <= |t| && forall k :: 0 <= k < i ==> Alone(t, k)
    ensures Answers(t, First(t, i))
    decreases |t| - i
  {
    hide Alone, Matches, Sorted, Partner;
    if i < |t| {
      PartnerMatches(t, i);
      if Partner(t, i) < 0 {
        FirstAnswers(t, i + 1);
      }
    }
  }

  // ----- the index -----

  predicate Tracked(e: Event) {
    Known(e) || Shared(e)
  }

  /** Exactly the keys of the events [lo, hi) of one kind, each with its latest event. */
  predicate CoversProcesses(t: seq<Event>, lo: nat, hi: nat, block: bool, m: map<Process, nat>)
    requires hi <= |t|
  {
    (forall k :: k in m ==> lo <= m[k] < hi && OfProcess(t[m[k]], block, k)) &&
    (forall j :: lo <= j < hi && Known(t[j]) && IsBlock(t[j]) == block ==>
       ProcessOf(t[j]) in m && j <= m[ProcessOf(t[j])])
  }

  predicate CoversCgroups(t: seq<Event>, lo: nat, hi: nat, block: bool, m: map<nat, nat>)
    requires hi <= |t|
  {
    (forall k :: k in m ==> lo <= m[k] < hi && OfCgroup(t[m[k]], block, k)) &&
    (forall j :: lo <= j < hi && Shared(t[j]) && IsBlock(t[j]) == block ==>
       t[j].cgroup in m && j <= m[t[j].cgroup])
  }

  predicate Covers(t: seq<Event>, lo: nat, hi: nat, block: bool, process: map<Process, nat>, cgroup: map<nat, nat>)
    requires hi <= |t|
  {
    CoversProcesses(t, lo, hi, block, process) && CoversCgroups(t, lo, hi, block, cgroup)
  }

  predicate IsBlock(e: Event) {
    e.kind == BLOCK_IO
  }

  predicate OfProcess(e: Event, block: bool, k: Process) {
    Known(e) && IsBlock(e) == block && ProcessOf(e) == k
  }

  predicate OfCgroup(e: Event, block: bool, k: nat) {
    Shared(e) && IsBlock(e) == block && e.cgroup == k
  }

  /** Reading a missing key gives zero. */
  function Lookup<K>(m: map<K, nat>, k: K): nat {
    if k in m then m[k] else 0
  }

  lemma AddProcess(t: seq<Event>, lo: nat, i: nat, m: map<Process, nat>)
    requires lo <= i < |t| && CoversProcesses(t, lo, i, IsBlock(t[i]), m)
    ensures CoversProcesses(t, lo, i + 1, IsBlock(t[i]), if Known(t[i]) then m[ProcessOf(t[i]) := i] else m)
  {
  }

  lemma AddCgroup(t: seq<Event>, lo: nat, i: nat, m: map<nat, nat>)
    requires lo <= i < |t| && CoversCgroups(t, lo, i, IsBlock(t[i]), m)
    ensures CoversCgroups(t, lo, i + 1, IsBlock(t[i]), if Shared(t[i]) then m[t[i].cgroup := i] else m)
  {
  }

  lemma RemoveProcess(t: seq<Event>, lo: nat, i: nat, hi: nat, m: map<Process, nat>)
    requires lo <= i < hi <= |t| && CoversProcesses(t, lo, hi, IsBlock(t[i]), m)
    requires forall j :: lo <= j < i ==> !Tracked(t[j])
    ensures CoversProcesses(t, i + 1, hi, IsBlock(t[i]),
              if Known(t[i]) && Lookup(m, ProcessOf(t[i])) == i then m - {ProcessOf(t[i])} else m)
  {
    forall k | k in m ensures i <= m[k] && (m[k] == i ==> k == ProcessOf(t[i])) {
      assert OfProcess(t[m[k]], IsBlock(t[i]), k);
    }
  }

  lemma RemoveCgroup(t: seq<Event>, lo: nat, i: nat, hi: nat, m: map<nat, nat>)
    requires lo <= i < hi <= |t| && CoversCgroups(t, lo, hi, IsBlock(t[i]), m)
    requires forall j :: lo <= j < i ==> !Tracked(t[j])
    ensures CoversCgroups(t, i + 1, hi, IsBlock(t[i]),
              if Shared(t[i]) && Lookup(m, t[i].cgroup) == i then m - {t[i].cgroup} else m)
  {
    forall k | k in m ensures i <= m[k] && (m[k] == i ==> k == t[i].cgroup) {
      assert OfCgroup(t[m[k]], IsBlock(t[i]), k);
    }
  }

  class Index {
    var process: map<Process, nat>
    var cgroup: map<nat, nat>

    constructor ()
      ensures process == map[] && cgroup == map[]
    {
      process, cgroup := map[], map[];
    }

    method Match(t: seq<Event>, ghost lo: nat, i: nat) returns (m: int)
      requires i < |t| && Covers(t, lo, i, !IsBlock(t[i]), process, cgroup)
      requires forall j :: lo <= j < i && Tracked(t[j]) ==> Near(t[j], t[i])
      requires forall j :: 0 <= j < lo && j < i && Tracked(t[j]) ==> !Near(t[j], t[i])
      ensures m == Partner(t, i)
    {
      var e := t[i];
      m := -1;
      if Known(e) {
        if ProcessOf(e) in process {
          m := process[ProcessOf(e)];
        }
      }
      assert m == LastProcess(t, i, i);
      if Shared(e) {
        if e.cgroup in cgroup && (m < 0 || cgroup[e.cgroup] < m) {
          m := cgroup[e.cgroup];
        }
      }
      assert Shared(e) && e.cgroup in cgroup ==> cgroup[e.cgroup] == LastCgroup(t, i, i);
      assert !(Shared(e) && e.cgroup in cgroup) ==> LastCgroup(t, i, i) == -1;
    }

    method Add(t: seq<Event>, ghost lo: nat, i: nat) returns (added: bool)
      requires lo <= i < |t| && Covers(t, lo, i, IsBlock(t[i]), process, cgroup)
      modifies this
      ensures added == Tracked(t[i])
      ensures Covers(t, lo, i + 1, IsBlock(t[i]), process, cgroup)
    {
      hide CoversProcesses, CoversCgroups;
      AddProcess(t, lo, i, process);
      AddCgroup(t, lo, i, cgroup);
      var e := t[i];
      added := false;
      if Known(e) {
        process := process[ProcessOf(e) := i];
        added := true;
      }
      if Shared(e) {
        cgroup := cgroup[e.cgroup := i];
        added := true;
      }
    }

    method Remove(t: seq<Event>, ghost lo: nat, i: nat, ghost hi: nat)
      requires lo <= i < hi <= |t| && Covers(t, lo, hi, IsBlock(t[i]), process, cgroup)
      requires forall j :: lo <= j < i ==> !Tracked(t[j])
      modifies this
      ensures Covers(t, i + 1, hi, IsBlock(t[i]), process, cgroup)
    {
      hide CoversProcesses, CoversCgroups;
      RemoveProcess(t, lo, i, hi, process);
      RemoveCgroup(t, lo, i, hi, cgroup);
      var e := t[i];
      if Known(e) {
        if Lookup(process, ProcessOf(e)) == i {
          process := process - {ProcessOf(e)};
        }
      }
      if Shared(e) && Lookup(cgroup, e.cgroup) == i {
        cgroup := cgroup - {e.cgroup};
      }
    }
  }

  /** Untracked events and events of the other kind leave an index as it is. */
  lemma CoversElse(t: seq<Event>, lo: nat, hi: nat, lo': nat, hi': nat, block: bool,
                   process: map<Process, nat>, cgroup: map<nat, nat>)
    requires lo <= lo' <= hi <= hi' <= |t| && Covers(t, lo, hi, block, process, cgroup)
    requires forall j :: lo <= j < lo' || hi <= j < hi' ==> !Tracked(t[j]) || IsBlock(t[j]) != block
    ensures Covers(t, lo', hi', block, process, cgroup)
  {
  }

  // ----- the queue -----

  /** The tracked events of [lo, hi), in order. */
  predicate Queue(q: seq<nat>, t: seq<Event>, lo: nat, hi: nat)
    requires hi <= |t|
  {
    (forall a, b :: 0 <= a < b < |q| ==> q[a] < q[b]) &&
    (forall a :: 0 <= a < |q| ==> lo <= q[a] < hi && Tracked(t[q[a]])) &&
    (forall j :: lo <= j < hi && Tracked(t[j]) ==> j in q)
  }

  /** Moves the live suffix to the front of the same array. */
  method Compact(active: array<nat>, head: nat, used: nat) returns (copied: nat)
    requires 0 < head <= used <= active.Length
    modifies active
    ensures copied == used - head
    ensures active[..copied] == old(active[head..used])
  {
    copied := 0;
    while copied < used - head
      invariant copied <= used - head
      invariant forall k :: 0 <= k < copied ==> active[k] == old(active[head + k])
      invariant forall k :: copied <= k < active.Length ==> active[k] == old(active[k])
    {
      active[copied] := active[head + copied];
      copied := copied + 1;
    }
  }

  /** Appends after the used part, moving to a larger array when it is full. */
  method Append(active: array<nat>, used: nat, x: nat) returns (r: array<nat>)
    requires used <= active.Length
    modifies active
    ensures r == active || fresh(r)
    ensures used < r.Length && r[..used] == old(active[..used]) && r[used] == x
  {
    r := active;
    if used == active.Length {
      r := new nat[2 * used + 1];
      forall k | 0 <= k < used {
        r[k] := active[k];
      }
    }
    r[used] := x;
  }

  /** Dropping the oldest tracked event starts the window after it. */
  lemma QueueTail(q: seq<nat>, t: seq<Event>, lo: nat, hi: nat)
    requires hi <= |t| && Queue(q, t, lo, hi) && |q| > 0
    ensures lo <= q[0] < hi && Queue(q[1..], t, q[0] + 1, hi)
    ensures forall j :: lo <= j < q[0] ==> !Tracked(t[j])
  {
    forall j | lo <= j < hi && Tracked(t[j]) ensures q[0] <= j {
      assert j in q;
    }
    forall j | q[0] + 1 <= j < hi && Tracked(t[j]) ensures j in q[1..] {
      assert j in q;
    }
  }

  lemma QueueNext(q: seq<nat>, t: seq<Event>, lo: nat, i: nat)
    requires lo <= i < |t| && Queue(q, t, lo, i)
    ensures Queue(if Tracked(t[i]) then q + [i] else q, t, lo, i + 1)
  {
    if Tracked(t[i]) {
      QueuePush(q, t, lo, i);
    }
  }

  lemma QueuePush(q: seq<nat>, t: seq<Event>, lo: nat, i: nat)
    requires lo <= i < |t| && Queue(q, t, lo, i) && Tracked(t[i])
    ensures Queue(q + [i], t, lo, i + 1)
  {
    hide Tracked;
    var r := q + [i];
    forall a, b | 0 <= a < b < |r| ensures r[a] < r[b] {
      assert r[a] == q[a] && (b < |q| ==> r[b] == q[b]);
    }
    forall a | 0 <= a < |r| ensures lo <= r[a] < i + 1 && Tracked(t[r[a]]) {
      assert a < |q| ==> r[a] == q[a];
    }
    forall j | lo <= j < i + 1 && Tracked(t[j]) ensures j in r {
      assert j < i ==> j in q;
      assert r[|q|] == i;
    }
  }

  /** Once the oldest queued event is near, so is every tracked one. */
  lemma AllNear(q: seq<nat>, t: seq<Event>, lo: nat, i: nat)
    requires i < |t| && Sorted(t) && Queue(q, t, lo, i) && (|q| > 0 ==> Near(t[q[0]], t[i]))
    ensures forall j :: lo <= j < i && Tracked(t[j]) ==> Near(t[j], t[i])
  {
    forall j | lo <= j < i && Tracked(t[j]) ensures Near(t[j], t[i]) {
      var a :| 0 <= a < |q| && q[a] == j;
      assert q[0] <= j;
    }
  }

  /** Every tracked event before `lo` is more than a second older than event `i`. */
  predicate Past(t: seq<Event>, lo: nat, i: nat) {
    i < |t| ==> forall j :: 0 <= j < lo && j < i && Tracked(t[j]) ==> !Near(t[j], t[i])
  }

  /** Both indexes hold exactly the tracked events of [lo, hi). */
  ghost predicate Indexed(t: seq<Event>, lo: nat, hi: nat, blocks: Index, others: Index)
    requires hi <= |t|
    reads blocks, others
  {
    Covers(t, lo, hi, true, blocks.process, blocks.cgroup) && Covers(t, lo, hi, false, others.process, others.cgroup)
  }

  method RemoveOldest(t: seq<Event>, ghost lo: nat, i: nat, hi: nat, blocks: Index, others: Index)
    requires lo <= i < hi <= |t| && blocks != others && Indexed(t, lo, hi, blocks, others)
    requires forall j :: lo <= j < i ==> !Tracked(t[j])
    modifies blocks, others
    ensures Indexed(t, i + 1, hi, blocks, others)
  {
    hide Covers;
    if t[i].kind == BLOCK_IO {
      blocks.Remove(t, lo, i, hi);
      CoversElse(t, lo, hi, i + 1, hi, false, others.process, others.cgroup);
    } else {
      others.Remove(t, lo, i, hi);
      CoversElse(t, lo, hi, i + 1, hi, true, blocks.process, blocks.cgroup);
    }
  }

  /** Expires what event `i` has left behind; `lo` follows the queue. */
  method Expire(t: seq<Event>, i: nat, active: array<nat>, head: nat, used: nat, blocks: Index, others: Index,
                ghost lo: nat)
    returns (head': nat, ghost lo': nat)
    requires Sorted(t) && i < |t| && head <= used <= active.Length && lo <= i && blocks != others
    requires Queue(active[head..used], t, lo, i) && Indexed(t, lo, i, blocks, others) && Past(t, lo, i)
    modifies blocks, others
    ensures head <= head' <= used && lo <= lo' <= i
    ensures Queue(active[head'..used], t, lo', i) && Indexed(t, lo', i, blocks, others) && Past(t, lo', i)
    ensures forall j :: lo' <= j < i && Tracked(t[j]) ==> Near(t[j], t[i])
  {
    hide Queue, Indexed;
    head', lo' := head, lo;
    while head' < used && t[i].mono - t[Head(active, head', used, t, lo', i)].mono > SECOND
      invariant head <= head' <= used && lo <= lo' <= i
      invariant Queue(active[head'..used], t, lo', i) && Indexed(t, lo', i, blocks, others) && Past(t, lo', i)
    {
      var o := Head(active, head', used, t, lo', i);
      QueueTail(active[head'..used], t, lo', i);
      RemoveOldest(t, lo', o, i, blocks, others);
      assert active[head'..used][1..] == active[head' + 1..used];
      lo' := o + 1;
      head' := head' + 1;
    }
    AllNear(active[head'..used], t, lo', i);
  }

  /** The oldest queued index. */
  function Head(active: array<nat>, head: nat, used: nat, t: seq<Event>, ghost lo: nat, i: nat): (o: nat)
    requires head < used <= active.Length && i <= |t| && Queue(active[head..used], t, lo, i)
    reads active
    ensures o == active[head..used][0] && lo <= o < i
  {
    active[head]
  }

  /** Empties a spent queue, or moves a half-spent one to the front of its array. */
  method Trim(active: array<nat>, head: nat, used: nat) returns (head': nat, used': nat, ghost copied: nat)
    requires head <= used <= active.Length
    modifies active
    ensures head' <= used' <= active.Length && head' <= head
    ensures active[head'..used'] == old(active[head..used])
    ensures copied == (if 0 < head < used && head >= used / 2 then used - head else 0) <= 2 * (head - head')
    ensures head' == 0 || head' < used' / 2
  {
    head', used', copied := head, used, 0;
    if head == used {
      head', used' := 0, 0;
    } else if head >= used / 2 && head > 0 {
      used' := Compact(active, head, used);
      copied := used';
      head' := 0;
    }
  }

  /** Adds event `i` to its own index and, when it shares anything, to the queue. */
  method Admit(t: seq<Event>, i: nat, active: array<nat>, head: nat, used: nat, blocks: Index, others: Index,
               ghost lo: nat)
    returns (active': array<nat>, used': nat)
    requires i < |t| && head <= used <= active.Length && lo <= i && blocks != others
    requires Queue(active[head..used], t, lo, i) && Indexed(t, lo, i, blocks, others)
    modifies active, blocks, others
    ensures active' == active || fresh(active')
    ensures head <= used' <= active'.Length && used <= used' <= used + 1
    ensures Queue(active'[head..used'], t, lo, i + 1) && Indexed(t, lo, i + 1, blocks, others)
  {
    hide Queue, Covers;
    active', used' := active, used;
    QueueNext(active[head..used], t, lo, i);
    var added;
    if t[i].kind == BLOCK_IO {
      CoversElse(t, lo, i, lo, i + 1, false, others.process, others.cgroup);
      added := blocks.Add(t, lo, i);
    } else {
      CoversElse(t, lo, i, lo, i + 1, true, blocks.process, blocks.cgroup);
      added := others.Add(t, lo, i);
    }
    if added {
      ghost var q := active[head..used];
      active' := Append(active, used, i);
      used' := used + 1;
      assert active'[head..used'] == q + [i];
    }
  }

  method MatchOpposite(t: seq<Event>, ghost lo: nat, i: nat, blocks: Index, others: Index) returns (m: int)
    requires lo <= i < |t| && Indexed(t, lo, i, blocks, others) && Past(t, lo, i)
    requires forall j :: lo <= j < i && Tracked(t[j]) ==> Near(t[j], t[i])
    ensures m == Partner(t, i)
  {
    hide Covers, Partner;
    var opposite := if t[i].kind == BLOCK_IO then others else blocks;
    m := opposite.Match(t, lo, i);
  }

  /** What event `i` has left behind, every later event has left behind. */
  lemma PastNext(t: seq<Event>, lo: nat, i: nat)
    requires Sorted(t) && lo <= i < |t| && Past(t, lo, i)
    ensures Past(t, lo, i + 1)
  {
  }

  lemma EmptyWindow(t: seq<Event>, blocks: Index, others: Index)
    requires blocks.process == map[] && blocks.cgroup == map[] && others.process == map[] && others.cgroup == map[]
    ensures Queue([], t, 0, 0) && Indexed(t, 0, 0, blocks, others) && Past(t, 0, 0)
  {
  }

  /** On every sorted timeline, the first event that shares a process or cgroup with one at most a
      second before it, with the earlier of its two latest matches; the same as the quadratic
      search, while expiring and copying no more than three queue entries per event. */
  method FirstCoincidence(t: seq<Event>) returns (r: Option<Pair>, ghost work: nat)
    requires Sorted(t)
    ensures Answers(t, r) && r == First(t, 0)
    ensures work <= 3 * |t|
  {
    hide Queue, Covers, Indexed, Past, Sorted, Answers, Partner, Tracked, Near;
    FirstAnswers(t, 0);
    var blocks := new Index();
    var others := new Index();
    var active := new nat[0];
    var head: nat, used: nat := 0, 0;
    ghost var lo: nat, expired: nat, copied: nat := 0, 0, 0;
    EmptyWindow(t, blocks, others);
    assert active[head..used] == [];
    var i := 0;
    while i < |t|
      invariant i <= |t| && head <= used <= active.Length && lo <= i
      invariant fresh(blocks) && fresh(others) && fresh(active) && blocks != others
      invariant Queue(active[head..used], t, lo, i) && Indexed(t, lo, i, blocks, others) && Past(t, lo, i)
      invariant First(t, i) == First(t, 0)
      invariant head <= expired && copied <= 2 * (expired - head) && expired + (used - head) <= i
    {
      ghost var before := head;
      head, lo := Expire(t, i, active, head, used, blocks, others, lo);
      expired := expired + head - before;
      ghost var n;
      head, used, n := Trim(active, head, used);
      copied := copied + n;
      var prior := MatchOpposite(t, lo, i, blocks, others);
      if prior >= 0 {
        return Some(Pair(prior, i)), expired + copied;
      }
      active, used := Admit(t, i, active, head, used, blocks, others, lo);
      PastNext(t, lo, i);
      i := i + 1;
    }
    return None, expired + copied;
  }
}
