/** The kernel's shared per-second detail quota: CPUs whose lookup, creation, check and
    increment are separate steps, and a userspace sweeper that deletes expired seconds. */
module DetailQuota {

  const SECOND: nat := 1_000_000_000
  const SLOTS: nat := 128
  const CRITICAL_DIVISOR: nat := 4

  datatype Detail = Detail(sec: nat, critical: bool)

  datatype Phase = Lookup | Create | Reread | Check | Increment

  datatype Cpu = Idle | Busy(ns: nat, critical: bool, phase: Phase)

  /** `budgets` is the kernel map; `admitted`, `suppressed`, `failures` and `offered` are what
      has happened to every detail so far. */
  datatype State = State(rate: nat, now: nat, swept: nat, budgets: map<nat, nat>, cpus: seq<Cpu>,
                         admitted: seq<Detail>, suppressed: seq<Detail>, failures: nat, offered: nat)

  datatype Step =
    | Tick(now: nat)
    | Offer(cpu: nat, critical: bool)
    | Move(cpu: nat)
    | Sweep(end: nat)                 // a sweep that completed
    | Remove(key: nat, end: nat)      // one deletion of a sweep that later failed

  /** Warnings leave a quarter of the rate, rounded up, to critical details. */
  function Limit(rate: nat, critical: bool): (r: nat)
    ensures r <= rate && r == if critical then rate else rate * 3 / 4
  {
    if critical then rate else rate - (rate + CRITICAL_DIVISOR - 1) / CRITICAL_DIVISOR
  }

  predicate Stale(key: nat, end: nat) {
    end / SECOND > 2 && key < end / SECOND - 2
  }

  function Without(m: map<nat, nat>, end: nat): map<nat, nat> {
    map k | k in m && !Stale(k, end) :: m[k]
  }

  function Start(rate: nat, cpus: nat, now: nat): State {
    State(rate, now, now, map[], seq(cpus, _ => Idle), [], [], 0, 0)
  }

  function DetailOf(c: Cpu): Detail
    requires c.Busy?
  {
    Detail(c.ns / SECOND, c.critical)
  }

  /** A detail belongs to the second its handler started in. */
  lemma SecondOf(c: Cpu)
    requires c.Busy?
    ensures var k := DetailOf(c).sec; k * 1_000_000_000 <= c.ns < (k + 1) * 1_000_000_000
  {
  }

  /** A budget is stale from two seconds after its second. */
  lemma StaleFrom(key: nat, end: nat)
    ensures Stale(key, end) <==> (key + 3) * 1_000_000_000 <= end
  {
  }

  /** Time passes only while every handler in flight is under two seconds old. */
  predicate Enabled(s: State, step: Step) {
    match step
    case Tick(t) => s.now <= t && forall c :: c in s.cpus && c.Busy? ==> t < c.ns + 2 * SECOND
    case Offer(i, _) => i < |s.cpus| && s.cpus[i].Idle?
    case Move(i) => i < |s.cpus| && s.cpus[i].Busy?
    case Sweep(end) => s.swept <= end <= s.now
    case Remove(key, end) => end <= s.now && Stale(key, end)
  }

  function Phased(s: State, i: nat, phase: Phase): State
    requires i < |s.cpus| && s.cpus[i].Busy?
  {
    s.(cpus := s.cpus[i := s.cpus[i].(phase := phase)])
  }

  function Done(s: State, i: nat): State
    requires i < |s.cpus|
  {
    s.(cpus := s.cpus[i := Idle])
  }

  function Used(s: State, sec: nat): nat {
    if sec in s.budgets then s.budgets[sec] else 0
  }

  /** One atomic step of `allowed` on one CPU. */
  function Advance(s: State, i: nat): State
    requires i < |s.cpus| && s.cpus[i].Busy?
  {
    var c := s.cpus[i];
    var d := DetailOf(c);
    match c.phase
    case Lookup => Phased(s, i, if d.sec in s.budgets then Check else Create)
    case Create =>
      if d.sec in s.budgets then Phased(s, i, Reread)
      else if |s.budgets| >= SLOTS then Done(s, i).(failures := s.failures + 1)
      else Phased(s, i, Reread).(budgets := s.budgets[d.sec := 0])
    case Reread =>
      if d.sec in s.budgets then Phased(s, i, Check) else Done(s, i).(failures := s.failures + 1)
    case Check =>
      if Used(s, d.sec) >= Limit(s.rate, d.critical) then Done(s, i).(suppressed := s.suppressed + [d])
      else Phased(s, i, Increment)
    case Increment =>
      Done(s, i).(budgets := s.budgets[d.sec := Used(s, d.sec) + 1], admitted := s.admitted + [d])
  }

  function Apply(s: State, step: Step): State
    requires Enabled(s, step)
  {
    match step
    case Tick(t) => s.(now := t)
    case Offer(i, critical) => s.(cpus := s.cpus[i := Busy(s.now, critical, Lookup)], offered := s.offered + 1)
    case Move(i) => Advance(s, i)
    case Sweep(end) => s.(budgets := Without(s.budgets, end), swept := end)
    case Remove(key, _) => s.(budgets := s.budgets - {key})
  }

  // ----- counting -----

  function Count<T>(xs: seq<T>, p: T -> bool): nat {
    if |xs| == 0 then 0 else Count(xs[..|xs| - 1], p) + if p(xs[|xs| - 1]) then 1 else 0
  }

  function One(b: bool): nat {
    if b then 1 else 0
  }

  lemma {:induction false} CountUpdate<T>(xs: seq<T>, i: nat, x: T, p: T -> bool)
    requires i < |xs|
    ensures Count(xs[i := x], p) + One(p(xs[i])) == Count(xs, p) + One(p(x))
  {
    var n := |xs| - 1;
    if i == n {
      assert xs[i := x][..n] == xs[..n];
    } else {
      assert xs[i := x][..n] == xs[..n][i := x];
      CountUpdate(xs[..n], i, x, p);
    }
  }

  lemma CountAppend<T>(xs: seq<T>, x: T, p: T -> bool)
    ensures Count(xs + [x], p) == Count(xs, p) + One(p(x))
  {
    assert (xs + [x])[..|xs|] == xs;
  }

  lemma {:induction false} CountAtMost<T>(xs: seq<T>, p: T -> bool)
    ensures Count(xs, p) <= |xs|
    ensures forall i :: 0 <= i < |xs| && !p(xs[i]) ==> Count(xs, p) < |xs|
  {
    if |xs| > 0 {
      CountAtMost(xs[..|xs| - 1], p);
    }
  }

  lemma {:induction false} CountFewer<T(!new)>(xs: seq<T>, p: T -> bool, q: T -> bool)
    requires forall x :: p(x) ==> q(x)
    ensures Count(xs, p) <= Count(xs, q)
  {
    if |xs| > 0 {
      CountFewer(xs[..|xs| - 1], p, q);
    }
  }

  function InSecond(sec: nat): Detail -> bool {
    (d: Detail) => d.sec == sec
  }

  function WarningIn(sec: nat): Detail -> bool {
    (d: Detail) => d.sec == sec && !d.critical
  }

  /** A CPU between its check and its increment. */
  function Passing(p: Detail -> bool): Cpu -> bool {
    (c: Cpu) => c.Busy? && c.phase == Increment && p(DetailOf(c))
  }

  function InFlight(): Cpu -> bool {
    (c: Cpu) => c.Busy?
  }

  function Admitted(s: State, sec: nat): nat {
    Count(s.admitted, InSecond(sec))
  }

  function Warnings(s: State, sec: nat): nat {
    Count(s.admitted, WarningIn(sec))
  }

  // ----- the invariant -----

  /** A handler in flight is under two seconds old, so its second is never stale; once past
      creation its budget exists until it is done. */
  predicate Handling(s: State) {
    forall c :: c in s.cpus && c.Busy? ==>
      c.ns <= s.now < c.ns + 2 * SECOND && (c.phase != Lookup && c.phase != Create ==> c.ns / SECOND in s.budgets)
  }

  /** A budget holds every admission of its second: none is ever reset, and a deleted one
      belongs to a second that no handler can reach again. */
  ghost predicate Kept(s: State) {
    (forall k :: k in s.budgets ==> s.budgets[k] == Admitted(s, k)) &&
    forall k: nat :: Admitted(s, k) > 0 && k !in s.budgets ==> Stale(k, s.now)
  }

  /** Admissions of a kind, with the CPUs about to make one, stay within a limit and one more
      per other CPU. */
  predicate Within(s: State, limit: nat, p: Detail -> bool) {
    Count(s.admitted, p) + Count(s.cpus, Passing(p)) <= limit + |s.cpus| - 1
  }

  ghost predicate Bounded(s: State) {
    |s.cpus| >= 1 &&
    (forall k: nat :: Within(s, s.rate, InSecond(k))) &&
    (forall k: nat :: Within(s, Limit(s.rate, false), WarningIn(k)))
  }

  /** A detail is suppressed only after its limit's worth of admissions in its second. */
  predicate Spent(s: State) {
    forall d :: d in s.suppressed ==> Admitted(s, d.sec) >= Limit(s.rate, d.critical)
  }

  /** Every detail offered was admitted, suppressed, counted as a failure, or is in flight. */
  predicate Accounted(s: State) {
    s.offered == |s.admitted| + |s.suppressed| + s.failures + Count(s.cpus, InFlight())
  }

  ghost predicate Inv(s: State) {
    Handling(s) && Kept(s) && Bounded(s) && Spent(s) && Accounted(s)
  }

  lemma {:induction false} NoneCounted(n: nat, p: Cpu -> bool)
    requires !p(Idle)
    ensures Count(seq(n, _ => Idle), p) == 0
  {
    if n > 0 {
      assert seq(n, _ => Idle)[..n - 1] == seq(n - 1, _ => Idle);
      NoneCounted(n - 1, p);
    }
  }

  lemma StartHolds(rate: nat, cpus: nat, now: nat)
    requires cpus >= 1
    ensures Inv(Start(rate, cpus, now))
  {
    NoneCounted(cpus, InFlight());
    forall k: nat ensures Count(Start(rate, cpus, now).cpus, Passing(InSecond(k))) == 0 {
      NoneCounted(cpus, Passing(InSecond(k)));
    }
    forall k: nat ensures Count(Start(rate, cpus, now).cpus, Passing(WarningIn(k))) == 0 {
      NoneCounted(cpus, Passing(WarningIn(k)));
    }
  }

  /** How one step changes the admissions of a kind and the CPUs about to make one. */
  lemma CountsMove(s: State, i: nat, p: Detail -> bool)
    requires i < |s.cpus| && s.cpus[i].Busy?
    ensures var r, c, d := Advance(s, i), s.cpus[i], DetailOf(s.cpus[i]);
            Count(r.admitted, p) == Count(s.admitted, p) + One(c.phase == Increment && p(d)) &&
            Count(r.cpus, Passing(p)) + One(c.phase == Increment && p(d)) ==
              Count(s.cpus, Passing(p)) + One(r.cpus[i].Busy? && r.cpus[i].phase == Increment && p(d))
  {
    var r, d := Advance(s, i), DetailOf(s.cpus[i]);
    assert r.cpus == s.cpus[i := r.cpus[i]];
    assert r.cpus[i].Busy? ==> DetailOf(r.cpus[i]) == d;
    CountUpdate(s.cpus, i, r.cpus[i], Passing(p));
    CountAppend(s.admitted, d, p);
  }

  /** The quota argument: a CPU passes its check only below the limit, and every other CPU can
      be past its own check at most once. */
  lemma WithinMoves(s: State, i: nat, k: nat, limit: nat, p: Detail -> bool)
    requires i < |s.cpus| && s.cpus[i].Busy? && Handling(s) && Kept(s) && Within(s, limit, p)
    requires forall d :: p(d) ==> d.sec == k && Limit(s.rate, d.critical) <= limit
    ensures Within(Advance(s, i), limit, p)
  {
    hide Count;
    var r, d := Advance(s, i), DetailOf(s.cpus[i]);
    assert s.cpus[i] in s.cpus;
    CountsMove(s, i, p);
    if p(d) && s.cpus[i].phase == Check && r.cpus[i].Busy? {
      CountAtMost(r.cpus, Passing(p));
      CountFewer(s.admitted, p, InSecond(k));
    }
  }

  lemma BoundedMoves(s: State, i: nat)
    requires Inv(s) && i < |s.cpus| && s.cpus[i].Busy?
    ensures Bounded(Advance(s, i))
  {
    var r := Advance(s, i);
    forall k: nat ensures Within(r, r.rate, InSecond(k)) {
      WithinMoves(s, i, k, s.rate, InSecond(k));
    }
    forall k: nat ensures Within(r, Limit(r.rate, false), WarningIn(k)) {
      WithinMoves(s, i, k, Limit(s.rate, false), WarningIn(k));
    }
  }

  /** Admissions only grow, by one in the second of the detail admitted. */
  lemma AdmittedMoves(s: State, i: nat, k: nat)
    requires i < |s.cpus| && s.cpus[i].Busy?
    ensures Admitted(Advance(s, i), k) ==
              Admitted(s, k) + One(s.cpus[i].phase == Increment && s.cpus[i].ns / SECOND == k)
  {
    CountAppend(s.admitted, DetailOf(s.cpus[i]), InSecond(k));
  }

  lemma KeptMoves(s: State, i: nat)
    requires Handling(s) && Kept(s) && i < |s.cpus| && s.cpus[i].Busy?
    ensures Kept(Advance(s, i)) && Handling(Advance(s, i))
  {
    hide Admitted;
    var r := Advance(s, i);
    var d := DetailOf(s.cpus[i]);
    assert s.cpus[i] in s.cpus;
    forall k: nat ensures Admitted(r, k) == Admitted(s, k) + One(s.cpus[i].phase == Increment && d.sec == k) {
      AdmittedMoves(s, i, k);
    }
    assert !Stale(d.sec, s.now);
    forall c | c in r.cpus && c.Busy?
      ensures c.ns <= r.now < c.ns + 2 * SECOND
      ensures c.phase != Lookup && c.phase != Create ==> c.ns / SECOND in r.budgets
    {
      assert c in s.cpus || c == r.cpus[i];
    }
  }

  lemma FlightMoves(s: State, i: nat)
    requires Accounted(s) && i < |s.cpus| && s.cpus[i].Busy?
    ensures Accounted(Advance(s, i))
  {
    var r := Advance(s, i);
    assert r.cpus == s.cpus[i := r.cpus[i]];
    CountUpdate(s.cpus, i, r.cpus[i], InFlight());
  }

  lemma MoveHolds(s: State, i: nat)
    requires Inv(s) && Enabled(s, Move(i))
    ensures Inv(Advance(s, i))
  {
    hide Handling, Kept, Bounded, Spent, Accounted, Advance;
    KeptMoves(s, i);
    BoundedMoves(s, i);
    SpentMoves(s, i);
    FlightMoves(s, i);
  }

  lemma SpentMoves(s: State, i: nat)
    requires Handling(s) && Kept(s) && Spent(s) && i < |s.cpus| && s.cpus[i].Busy?
    ensures Spent(Advance(s, i))
  {
    hide Admitted;
    var r := Advance(s, i);
    assert s.cpus[i] in s.cpus;
    forall d | d in r.suppressed ensures Admitted(r, d.sec) >= Limit(r.rate, d.critical) {
      AdmittedMoves(s, i, d.sec);
    }
  }

  /** Starting a handler, deleting stale seconds and letting time pass keep the invariant. */
  lemma OfferHolds(s: State, i: nat, critical: bool)
    requires Inv(s) && Enabled(s, Offer(i, critical))
    ensures Inv(Apply(s, Offer(i, critical)))
  {
    var c := Busy(s.now, critical, Lookup);
    CountUpdate(s.cpus, i, c, InFlight());
    forall k: nat ensures Count(s.cpus[i := c], Passing(InSecond(k))) == Count(s.cpus, Passing(InSecond(k))) {
      CountUpdate(s.cpus, i, c, Passing(InSecond(k)));
    }
    forall k: nat ensures Count(s.cpus[i := c], Passing(WarningIn(k))) == Count(s.cpus, Passing(WarningIn(k))) {
      CountUpdate(s.cpus, i, c, Passing(WarningIn(k)));
    }
    forall x | x in s.cpus[i := c] ensures x in s.cpus || x == c {
    }
  }

  /** Deleting stale seconds keeps the invariant. */
  lemma DeleteHolds(s: State, budgets: map<nat, nat>, swept: nat)
    requires Inv(s)
    requires forall k :: k in budgets ==> k in s.budgets && budgets[k] == s.budgets[k]
    requires forall k :: k in s.budgets && k !in budgets ==> Stale(k, s.now)
    ensures Inv(s.(budgets := budgets, swept := swept))
  {
    hide Admitted, Within;
    var r := s.(budgets := budgets, swept := swept);
    SameAdmitted(s, r);
    SameWithin(s, r);
  }

  lemma TickHolds(s: State, t: nat)
    requires Inv(s) && Enabled(s, Tick(t))
    ensures Inv(s.(now := t))
  {
    hide Admitted, Within;
    SameAdmitted(s, s.(now := t));
    SameWithin(s, s.(now := t));
  }

  lemma SameAdmitted(s: State, r: State)
    requires r.admitted == s.admitted
    ensures forall k: nat :: Admitted(r, k) == Admitted(s, k)
  {
  }

  lemma SameWithin(s: State, r: State)
    requires r.admitted == s.admitted && r.cpus == s.cpus
    ensures forall limit: nat, p: Detail -> bool :: Within(s, limit, p) ==> Within(r, limit, p)
  {
  }

  lemma StepHolds(s: State, step: Step)
    requires Inv(s) && Enabled(s, step)
    ensures Inv(Apply(s, step)) && Apply(s, step).rate == s.rate && |Apply(s, step).cpus| == |s.cpus|
  {
    hide Inv;
    match step
    case Tick(t) => TickHolds(s, t);
    case Offer(i, critical) => OfferHolds(s, i, critical);
    case Move(i) => MoveHolds(s, i);
    case Sweep(end) => DeleteHolds(s, Without(s.budgets, end), end);
    case Remove(key, _) => DeleteHolds(s, s.budgets - {key}, s.swept);
  }

  // ----- runs -----

  predicate Possible(s: State, steps: seq<Step>)
    decreases |steps|
  {
    |steps| == 0 || (Enabled(s, steps[0]) && Possible(Apply(s, steps[0]), steps[1..]))
  }

  function After(s: State, steps: seq<Step>): State
    requires Possible(s, steps)
    decreases |steps|
  {
    if |steps| == 0 then s else After(Apply(s, steps[0]), steps[1..])
  }

  lemma {:induction false} RunHolds(s: State, steps: seq<Step>)
    requires Inv(s) && Possible(s, steps)
    ensures var r := After(s, steps); Inv(r) && r.rate == s.rate && |r.cpus| == |s.cpus|
    decreases |steps|
  {
    hide Inv, Apply;
    if |steps| > 0 {
      StepHolds(s, steps[0]);
      RunHolds(Apply(s, steps[0]), steps[1..]);
    }
  }

  /** Over any interleaving on any number of CPUs: at most one admission per other CPU goes
      past the rate of a second, and past the warning share; critical details are suppressed
      only after the whole rate was admitted; no second's count is ever reset; and every
      detail is accounted for. */
  lemma QuotaOverRuns(rate: nat, cpus: nat, now: nat, steps: seq<Step>)
    requires cpus >= 1 && Possible(Start(rate, cpus, now), steps)
    ensures var r := After(Start(rate, cpus, now), steps);
            (forall k: nat :: Admitted(r, k) <= rate + cpus - 1 && Warnings(r, k) <= Limit(rate, false) + cpus - 1) &&
            (forall d :: d in r.suppressed && d.critical ==> Admitted(r, d.sec) >= rate) &&
            (forall k :: k in r.budgets ==> r.budgets[k] == Admitted(r, k)) &&
            (forall k: nat :: Admitted(r, k) > 0 && k !in r.budgets ==> Stale(k, r.now)) &&
            r.offered == |r.admitted| + |r.suppressed| + r.failures + Count(r.cpus, InFlight())
  {
    StartHolds(rate, cpus, now);
    RunHolds(Start(rate, cpus, now), steps);
    hide Count, After, Possible;
    var r := After(Start(rate, cpus, now), steps);
    forall k: nat ensures Admitted(r, k) <= rate + cpus - 1 && Warnings(r, k) <= Limit(rate, false) + cpus - 1 {
      assert Within(r, r.rate, InSecond(k)) && Within(r, Limit(r.rate, false), WarningIn(k));
    }
  }

  /** On one CPU the counts are exact: a suppressed critical detail means exactly the rate was
      admitted in its second, and a suppressed warning at least the warning share. */
  lemma SingleCpuExact(rate: nat, now: nat, steps: seq<Step>, d: Detail)
    requires Possible(Start(rate, 1, now), steps) && d in After(Start(rate, 1, now), steps).suppressed
    ensures var n := Admitted(After(Start(rate, 1, now), steps), d.sec);
            Limit(rate, d.critical) <= n <= rate && (d.critical ==> n == rate)
  {
    QuotaOverRuns(rate, 1, now, steps);
    RunHolds(Start(rate, 1, now), steps) by { StartHolds(rate, 1, now); }
  }
}
