/** The userspace sweep of expired detail budgets, and the room it keeps in the kernel map. */
module BudgetSweep {
  import opened DetailQuota

  datatype Outcome = Swept | NotDue | Perturbed | Failed

  /** What one sweep may do to the map: remove stale seconds, nothing else. */
  predicate OnlyStaleRemoved(before: map<nat, nat>, after: map<nat, nat>, end: nat) {
    (forall k :: k in after ==> k in before && after[k] == before[k]) &&
    forall k :: k in before && k !in after ==> Stale(k, end)
  }

  class Sensor {
    var lastBudgetSweepSec: nat
    var staleBudgetKeys: seq<nat>
    var budgets: map<nat, nat>

    constructor (budgets: map<nat, nat>)
      ensures lastBudgetSweepSec == 0 && this.budgets == budgets
    {
      lastBudgetSweepSec, staleBudgetKeys, this.budgets := 0, [], budgets;
    }

    /** Walks the keys the kernel yields; `broken` tells that the walk ended in an error. */
    method Collect(end: nat, walk: seq<nat>, broken: bool) returns (r: Outcome)
      modifies `staleBudgetKeys
      ensures r == (if |walk| > SLOTS then Perturbed else if broken then Failed else Swept)
      ensures forall k :: k in staleBudgetKeys ==> Stale(k, end)
      ensures r.Swept? ==> forall k :: k in walk && Stale(k, end) ==> k in staleBudgetKeys
    {
      staleBudgetKeys := [];
      for i := 0 to SLOTS + 1
        invariant i <= |walk| && i <= SLOTS
        invariant forall k :: k in staleBudgetKeys ==> Stale(k, end)
        invariant forall k :: k in walk[..i] && Stale(k, end) ==> k in staleBudgetKeys
      {
        if i == |walk| {
          return if broken then Failed else Swept;
        }
        if i == SLOTS {
          return Perturbed;
        }
        var next := walk[i];
        assert walk[..i + 1] == walk[..i] + [next];
        if end / SECOND > 2 && next < end / SECOND - 2 {
          staleBudgetKeys := staleBudgetKeys + [next];
        }
      }
    }

    /** Deletes the collected keys; `stuck` is the position of a deletion that fails. */
    method Delete(ghost end: nat, stuck: nat) returns (ok: bool)
      requires forall k :: k in staleBudgetKeys ==> Stale(k, end)
      modifies `budgets
      ensures OnlyStaleRemoved(old(budgets), budgets, end)
      ensures ok <==> stuck >= |staleBudgetKeys|
      ensures ok ==> forall k :: k in staleBudgetKeys ==> k !in budgets
    {
      for i := 0 to |staleBudgetKeys|
        invariant OnlyStaleRemoved(old(budgets), budgets, end) && i <= stuck
        invariant forall k :: k in staleBudgetKeys[..i] ==> k !in budgets
      {
        if i == stuck {
          return false;
        }
        assert staleBudgetKeys[..i + 1] == staleBudgetKeys[..i] + [staleBudgetKeys[i]];
        budgets := budgets - {staleBudgetKeys[i]};
      }
      return true;
    }

    /** A sweep that completes over all keys leaves exactly the unexpired ones; any other sweep
        removes at most expired ones and stays due. */
    method PruneDetailBudgets(end: nat, walk: seq<nat>, broken: bool, stuck: nat) returns (r: Outcome)
      modifies this
      ensures OnlyStaleRemoved(old(budgets), budgets, end)
      ensures r.NotDue? <==> end / SECOND == old(lastBudgetSweepSec)
      ensures r.Perturbed? || r.NotDue? ==> budgets == old(budgets)
      ensures lastBudgetSweepSec == if r.Swept? then end / SECOND else old(lastBudgetSweepSec)
      ensures r.Swept? && (forall k :: k in old(budgets) ==> k in walk) ==> budgets == Without(old(budgets), end)
    {
      var sec := end / SECOND;
      if sec == lastBudgetSweepSec {
        return NotDue;
      }
      r := Collect(end, walk, broken);
      if !r.Swept? {
        return r;
      }
      var ok := Delete(end, stuck);
      if !ok {
        return Failed;
      }
      lastBudgetSweepSec := sec;
    }
  }

  // ----- room -----

  // Sweeps this far apart still leave a free slot; polls are at most a minute apart.
  const SWEEP_GAP: nat := 124 * SECOND

  /** Time passes only while the last completed sweep is recent. */
  predicate Timely(s: State, step: Step) {
    Enabled(s, step) && (step.Tick? ==> step.now <= s.swept + SWEEP_GAP)
  }

  predicate TimelyRun(s: State, steps: seq<Step>)
    decreases |steps|
  {
    |steps| == 0 || (Timely(s, steps[0]) && TimelyRun(Apply(s, steps[0]), steps[1..]))
  }

  /** Budgets belong to the seconds from two before the last sweep up to now. */
  ghost predicate Recent(s: State) {
    s.swept <= s.now <= s.swept + SWEEP_GAP && s.failures == 0 &&
    forall k :: k in s.budgets ==> s.swept / SECOND <= k + 2 && k <= s.now / SECOND
  }

  lemma {:induction false} Interval(ks: set<nat>, lo: nat, n: nat)
    requires forall k :: k in ks ==> lo <= k < lo + n
    ensures |ks| <= n
  {
    if n == 0 {
      assert ks == {};
    } else {
      var rest := ks - {lo + n - 1};
      Interval(rest, lo, n - 1);
      assert ks <= rest + {lo + n - 1};
    }
  }

  lemma Room(s: State)
    requires Recent(s)
    ensures |s.budgets| < SLOTS
  {
    var lo := if s.swept / SECOND >= 2 then s.swept / SECOND - 2 else 0;
    Interval(s.budgets.Keys, lo, SLOTS - 1);
  }

  lemma RecentStep(s: State, step: Step)
    requires Handling(s) && Recent(s) && Timely(s, step)
    ensures Recent(Apply(s, step))
  {
    Room(s);
    if step.Move? {
      assert s.cpus[step.cpu] in s.cpus;
    }
  }

  lemma {:induction false} RecentRun(s: State, steps: seq<Step>)
    requires Inv(s) && Recent(s) && TimelyRun(s, steps)
    ensures Possible(s, steps) && Recent(After(s, steps))
    decreases |steps|
  {
    hide Recent, Bounded, Kept, Spent, Accounted, Apply;
    if |steps| > 0 {
      RecentStep(s, steps[0]);
      StepHolds(s, steps[0]);
      RecentRun(Apply(s, steps[0]), steps[1..]);
    }
  }

  /** With completed sweeps at most 124 seconds apart the map never fills its slots, and no
      detail is ever lost to a budget failure. */
  lemma SweepsKeepRoom(rate: nat, cpus: nat, now: nat, steps: seq<Step>)
    requires cpus >= 1 && TimelyRun(Start(rate, cpus, now), steps)
    ensures Possible(Start(rate, cpus, now), steps)
    ensures var r := After(Start(rate, cpus, now), steps); |r.budgets| < 128 && r.failures == 0
  {
    StartHolds(rate, cpus, now);
    RecentRun(Start(rate, cpus, now), steps);
    Room(After(Start(rate, cpus, now), steps));
  }
}
