/** The runnable-wait tracker of the kernel program against the wait each task really had,
    over traces of wakeups, switches and exits. Pid 0 is the idle task and is never tracked. */
module RunnableWait {
  import opened Telemetry

  /** `room` tells whether a key that is not in the map could be added by this event. A switch
      reads the clock for the task leaving and again for the task entering. */
  datatype Event =
    | Wakeup(pid: nat, now: nat, room: bool)
    | Switch(prev: nat, runnable: bool, out: nat, room: bool, next: nat, now: nat)
    | Exit(pid: nat, now: nat)

  function First(e: Event): nat {
    if e.Switch? then e.out else e.now
  }

  /** The clock does not run backwards. */
  predicate Clocked(h: seq<Event>) {
    (forall e :: e in h ==> First(e) <= e.now) && forall i, j :: 0 <= i < j < |h| ==> h[i].now <= First(h[j])
  }

  // ----- the true wait -----

  predicate Leaves(e: Event, pid: nat) {
    e.Switch? && e.prev == pid
  }

  predicate Enters(e: Event, pid: nat) {
    e.Switch? && e.next == pid
  }

  /** The task is on a CPU: its last switch put it there. */
  predicate Running(h: seq<Event>, pid: nat) {
    |h| > 0 &&
    var e, rest := h[|h| - 1], h[..|h| - 1];
    if Enters(e, pid) then true else if Leaves(e, pid) then false else Running(rest, pid)
  }

  /** When a waiting task last became runnable: its switch-out while runnable, or the first
      wakeup after it blocked. None while it runs or is blocked. */
  function Since(h: seq<Event>, pid: nat): Option<nat> {
    if |h| == 0 then None
    else
      var e, rest := h[|h| - 1], h[..|h| - 1];
      if Enters(e, pid) then None
      else if Leaves(e, pid) then (if e.runnable then Some(e.out) else None)
      else if e.Exit? && e.pid == pid then None
      else if e.Wakeup? && e.pid == pid && Since(rest, pid).None? && !Running(rest, pid) then Some(e.now)
      else Since(rest, pid)
  }

  // ----- the tracker -----

  function Enqueue(m: map<nat, nat>, pid: nat, now: nat, room: bool): map<nat, nat> {
    if pid == 0 || pid in m || !room then m else m[pid := now]
  }

  function LeaveMap(m: map<nat, nat>, e: Event): map<nat, nat>
    requires e.Switch?
  {
    if e.prev == 0 then m
    else if e.runnable then (if e.prev in m || e.room then m[e.prev := e.out] else m)
    else m - {e.prev}
  }

  function Next(m: map<nat, nat>, e: Event): map<nat, nat> {
    match e
    case Wakeup(pid, now, room) => Enqueue(m, pid, now, room)
    case Switch(_, _, _, _, next, _) => if next == 0 then LeaveMap(m, e) else LeaveMap(m, e) - {next}
    case Exit(pid, _) => m - {pid}
  }

  function Runnable(h: seq<Event>): map<nat, nat> {
    if |h| == 0 then map[] else Next(Runnable(h[..|h| - 1]), h[|h| - 1])
  }

  /** The wait measured when a task enters a CPU. */
  function Measured(m: map<nat, nat>, e: Event): Option<int>
    requires e.Switch?
  {
    if e.next != 0 && e.next in LeaveMap(m, e) then Some(e.now - LeaveMap(m, e)[e.next]) else None
  }

  /** The event had to add this task's key to the map and could not. */
  predicate Fails(m: map<nat, nat>, e: Event, pid: nat) {
    ((e.Wakeup? && e.pid == pid) || (Leaves(e, pid) && e.runnable)) && pid !in m && !e.room
  }

  /** No insertion for this task failed since it last left a CPU or exited. */
  predicate Inserted(h: seq<Event>, pid: nat) {
    |h| == 0 ||
    var e, rest := h[|h| - 1], h[..|h| - 1];
    !Fails(Runnable(rest), e, pid) && (Leaves(e, pid) || (e.Exit? && e.pid == pid) || Inserted(rest, pid))
  }

  /** What the map says of a task that is not running. */
  predicate Sound(m: map<nat, nat>, running: bool, since: Option<nat>, inserted: bool, pid: nat) {
    !running ==>
      (pid in m ==> since.Some? && since.value <= m[pid]) &&
      (inserted ==> (since.Some? <==> pid in m) && (pid in m ==> m[pid] == since.value))
  }

  predicate SoundAt(h: seq<Event>, pid: nat) {
    Sound(Runnable(h), Running(h, pid), Since(h, pid), Inserted(h, pid), pid)
  }

  /** Nothing recorded is later than the present. */
  lemma {:induction false} Past(h: seq<Event>, pid: nat)
    requires Clocked(h) && |h| > 0
    ensures Since(h, pid).Some? ==> Since(h, pid).value <= h[|h| - 1].now
    decreases |h|
  {
    var rest, e := h[..|h| - 1], h[|h| - 1];
    assert e in h;
    if |rest| > 0 {
      assert Clocked(rest) by { ClockedPrefix(h, |h| - 1); }
      Past(rest, pid);
      assert rest[|rest| - 1] == h[|h| - 2];
    }
  }

  lemma ClockedPrefix(h: seq<Event>, n: nat)
    requires Clocked(h) && n <= |h|
    ensures Clocked(h[..n])
  {
    forall e | e in h[..n] ensures First(e) <= e.now {
      assert e in h;
    }
  }

  lemma LastUnfolds(h: seq<Event>, e: Event, pid: nat)
    ensures Runnable(h + [e]) == Next(Runnable(h), e)
    ensures Running(h + [e], pid) == (Enters(e, pid) || (!Leaves(e, pid) && Running(h, pid)))
    ensures Inserted(h + [e], pid) <==>
              !Fails(Runnable(h), e, pid) && (Leaves(e, pid) || (e.Exit? && e.pid == pid) || Inserted(h, pid))
    ensures Since(h + [e], pid) ==
              if Enters(e, pid) then None
              else if Leaves(e, pid) then (if e.runnable then Some(e.out) else None)
              else if e.Exit? && e.pid == pid then None
              else if e.Wakeup? && e.pid == pid && Since(h, pid).None? && !Running(h, pid) then Some(e.now)
              else Since(h, pid)
  {
    assert (h + [e])[..|h|] == h;
  }

  /** What was recorded before an event is no later than it. */
  lemma Before(h: seq<Event>, e: Event, pid: nat)
    requires Clocked(h + [e])
    ensures Clocked(h) && First(e) <= e.now
    ensures Since(h, pid).Some? ==> Since(h, pid).value <= First(e)
  {
    hide Since;
    var r := h + [e];
    assert r[..|h|] == h && r[|h|] == e && e in r;
    ClockedPrefix(r, |h|);
    if |h| > 0 {
      assert r[|h| - 1] == h[|h| - 1];
      Past(h, pid);
    } else {
      NothingSince(h, pid);
    }
  }

  lemma NothingSince(h: seq<Event>, pid: nat)
    requires |h| == 0
    ensures Since(h, pid).None?
  {
  }

  lemma SoundNext(h: seq<Event>, e: Event, pid: nat)
    requires pid != 0 && SoundAt(h, pid) && Clocked(h + [e]) && (e.Switch? ==> e.prev != e.next)
    ensures SoundAt(h + [e], pid)
  {
    hide Runnable, Running, Since, Inserted, Clocked;
    LastUnfolds(h, e, pid);
    Before(h, e, pid);
  }

  predicate Switches(h: seq<Event>) {
    forall e :: e in h && e.Switch? ==> e.prev != e.next
  }

  lemma {:induction false} AlwaysSound(h: seq<Event>, pid: nat)
    requires pid != 0 && Clocked(h) && Switches(h)
    ensures SoundAt(h, pid)
    decreases |h|
  {
    if |h| > 0 {
      var rest, e := h[..|h| - 1], h[|h| - 1];
      assert rest + [e] == h;
      ClockedPrefix(h, |h| - 1);
      assert forall x :: x in rest ==> x in h;
      AlwaysSound(rest, pid);
      SoundNext(rest, e, pid);
    }
  }

  /** Over every trace, whatever wakeups arrive while the task runs or waits: a wait measured
      as it enters a CPU never exceeds the time since it last became runnable, and when no
      insertion of it failed the measurement is exactly that time, or absent exactly when the
      task did not become runnable. */
  lemma WaitExact(h: seq<Event>, e: Event)
    requires Clocked(h + [e]) && Switches(h + [e]) && e.Switch? && e.next != 0 && !Running(h, e.next)
    ensures var m := Measured(Runnable(h), e);
            (m.Some? ==> Since(h, e.next).Some? && 0 <= m.value <= e.now - Since(h, e.next).value) &&
            (Inserted(h, e.next) ==>
               if Since(h, e.next).Some? then m == Some(e.now - Since(h, e.next).value) else m == None)
  {
    hide Runnable, Running, Since, Inserted, Clocked;
    Before(h, e, e.next);
    assert forall x :: x in h ==> x in h + [e];
    assert e in h + [e];
    AlwaysSound(h, e.next);
    EntriesPast(h, e, e.next);
  }

  /** No entry is later than the present. */
  lemma {:induction false} EntriesPast(h: seq<Event>, e: Event, pid: nat)
    requires Clocked(h + [e])
    ensures pid in Runnable(h) ==> Runnable(h)[pid] <= First(e)
    decreases |h|
  {
    hide Clocked;
    if |h| > 0 {
      var rest, last := h[..|h| - 1], h[|h| - 1];
      assert rest + [last] == h;
      Before(h, e, pid);
      Before(rest, last, pid);
      EntriesPast(rest, last, pid);
      Ordered(h, e);
    }
  }

  lemma Ordered(h: seq<Event>, e: Event)
    requires Clocked(h + [e]) && |h| > 0
    ensures h[|h| - 1].now <= First(e)
  {
    assert (h + [e])[|h|] == e && (h + [e])[|h| - 1] == h[|h| - 1];
  }

  lemma RunnableNext(h: seq<Event>, e: Event)
    ensures Runnable(h + [e]) == Next(Runnable(h), e)
  {
    assert (h + [e])[..|h|] == h;
  }

  /** The kernel program: the map, its counters, and the trace they came from. */
  class Tracker {
    const threshold: nat
    const criticalThreshold: nat
    var runnable: map<nat, nat>
    var count: nat
    var anomalies: nat
    var critical: nat
    var trackingFailures: nat
    ghost var trace: seq<Event>

    ghost predicate Valid()
      reads this
    {
      runnable == Runnable(trace)
    }

    constructor (threshold: nat, criticalThreshold: nat)
      ensures Valid() && trace == [] && count == anomalies == critical == trackingFailures == 0
    {
      this.threshold, this.criticalThreshold := threshold, criticalThreshold;
      runnable, trace := map[], [];
      count, anomalies, critical, trackingFailures := 0, 0, 0, 0;
    }

    /** A wakeup: a second one never shortens a wait that has begun. */
    method Enqueue(pid: nat, now: nat, room: bool)
      requires Valid()
      modifies `runnable, `trackingFailures, `trace
      ensures Valid() && trace == old(trace) + [Wakeup(pid, now, room)]
      ensures trackingFailures == old(trackingFailures) +
                if pid != 0 && Fails(old(runnable), Wakeup(pid, now, room), pid) then 1 else 0
    {
      hide Runnable;
      RunnableNext(trace, Wakeup(pid, now, room));
      trace := trace + [Wakeup(pid, now, room)];
      if pid == 0 {
        return;
      }
      if pid !in runnable {
        if room {
          runnable := runnable[pid := now];
        } else {
          trackingFailures := trackingFailures + 1;
        }
      }
    }

    /** A switch ends the wait of the task entering and starts, or discards, that of the task
        leaving; the measured wait is the trace's. */
    method SwitchTask(prev: nat, runnable': bool, out: nat, room: bool, next: nat, now: nat) returns (wait: Option<int>)
      requires Valid()
      modifies this
      ensures Valid() && trace == old(trace) + [Switch(prev, runnable', out, room, next, now)]
      ensures wait == Measured(old(runnable), Switch(prev, runnable', out, room, next, now))
      ensures trackingFailures == old(trackingFailures) +
                if prev != 0 && Fails(old(runnable), Switch(prev, runnable', out, room, next, now), prev) then 1 else 0
      ensures count == old(count) + (if wait.Some? then 1 else 0)
      ensures anomalies == old(anomalies) + (if wait.Some? && wait.value >= threshold then 1 else 0)
      ensures critical == old(critical) +
                if wait.Some? && wait.value >= threshold && wait.value >= criticalThreshold then 1 else 0
    {
      hide Runnable;
      ghost var e := Switch(prev, runnable', out, room, next, now);
      RunnableNext(trace, e);
      trace := trace + [e];
      Leave(e, prev, runnable', out, room);
      if next == 0 {
        return None;
      }
      if next !in runnable {
        assert runnable - {next} == runnable;
        return None;
      }
      var latency := now - runnable[next];
      Record(latency);
      runnable := runnable - {next};
      return Some(latency);
    }

    /** The task leaving starts a fresh wait, or loses any earlier wakeup when it blocks. */
    method Leave(ghost e: Event, prev: nat, runnable': bool, out: nat, room: bool)
      requires e.Switch? && e.prev == prev && e.runnable == runnable' && e.out == out && e.room == room
      modifies `runnable, `trackingFailures
      ensures runnable == LeaveMap(old(runnable), e)
      ensures trackingFailures == old(trackingFailures) + if prev != 0 && Fails(old(runnable), e, prev) then 1 else 0
    {
      if prev != 0 {
        if runnable' {
          if prev in runnable || room {
            runnable := runnable[prev := out];
          } else {
            trackingFailures := trackingFailures + 1;
          }
        } else {
          runnable := runnable - {prev};
        }
      }
    }

    method Record(latency: int)
      modifies `count, `anomalies, `critical
      ensures count == old(count) + 1
      ensures anomalies == old(anomalies) + (if latency >= threshold then 1 else 0)
      ensures critical == old(critical) + if latency >= threshold && latency >= criticalThreshold then 1 else 0
    {
      count := count + 1;
      if latency >= threshold {
        anomalies := anomalies + 1;
        if latency >= criticalThreshold {
          critical := critical + 1;
        }
      }
    }

    method ExitTask(pid: nat, now: nat)
      requires Valid()
      modifies `runnable, `trace
      ensures Valid() && trace == old(trace) + [Exit(pid, now)]
    {
      hide Runnable;
      RunnableNext(trace, Exit(pid, now));
      trace := trace + [Exit(pid, now)];
      runnable := runnable - {pid};
    }
  }
}
