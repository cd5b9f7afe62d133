/** The quota's overshoot is real: for every rate and every number of CPUs some interleaving
    admits exactly one detail more per other CPU. */
module QuotaAttained {
  import opened DetailQuota

  ghost predicate Reaches(s: State, r: State) {
    exists steps :: Possible(s, steps) && After(s, steps) == r
  }

  lemma {:induction false} OneMore(s: State, steps: seq<Step>, step: Step)
    requires Possible(s, steps) && Enabled(After(s, steps), step)
    ensures Possible(s, steps + [step]) && After(s, steps + [step]) == Apply(After(s, steps), step)
    decreases |steps|
  {
    if |steps| == 0 {
      assert (steps + [step])[1..] == [];
    } else {
      OneMore(Apply(s, steps[0]), steps[1..], step);
      assert (steps + [step])[1..] == steps[1..] + [step];
    }
  }

  lemma Then(s: State, m: State, step: Step)
    requires Reaches(s, m) && Enabled(m, step)
    ensures Reaches(s, Apply(m, step))
  {
    var steps :| Possible(s, steps) && After(s, steps) == m;
    OneMore(s, steps, step);
  }

  lemma AtStart(s: State)
    ensures Reaches(s, s)
  {
    assert Possible(s, []) && After(s, []) == s;
  }

  /** One detail, `k` times. */
  function Copies(d: Detail, k: nat): seq<Detail> {
    if k == 0 then [] else Copies(d, k - 1) + [d]
  }

  function PastCheck(now: nat): Cpu {
    Busy(now, true, Increment)
  }

  function Budget(now: nat, used: nat, made: bool): map<nat, nat> {
    if made then map[now / SECOND := used] else map[]
  }

  /** `k` admitted, and the first `j` CPUs past their checks. */
  function Held(rate: nat, n: nat, now: nat, k: nat, j: nat): State {
    State(rate, now, now, Budget(now, k, k + j > 0), seq(n, i => if i < j then PastCheck(now) else Idle),
          Copies(Detail(now / SECOND, true), k), [], 0, k + j)
  }

  /** `k` admitted before all CPUs passed their checks, and since then the first `j`. */
  function Drained(rate: nat, n: nat, now: nat, k: nat, j: nat): State {
    State(rate, now, now, Budget(now, k + j, true), seq(n, i => if i < j then Idle else PastCheck(now)),
          Copies(Detail(now / SECOND, true), k + j), [], 0, k + n)
  }

  /** CPU `i` offers a critical detail and passes its check, making the budget if need be. */
  lemma Passes(s: State, m: State, i: nat)
    requires Reaches(s, m) && i < |m.cpus| && m.cpus[i].Idle? && Used(m, m.now / SECOND) < m.rate && |m.budgets| < SLOTS
    ensures Reaches(s, m.(cpus := m.cpus[i := PastCheck(m.now)], offered := m.offered + 1,
                          budgets := if m.now / SECOND in m.budgets then m.budgets else m.budgets[m.now / SECOND := 0]))
  {
    hide Reaches;
    var sec := m.now / SECOND;
    Then(s, m, Offer(i, true));
    var a := m.(cpus := m.cpus[i := Busy(m.now, true, Lookup)], offered := m.offered + 1);
    Then(s, a, Move(i));
    var b := if sec in m.budgets then m.budgets else m.budgets[sec := 0];
    if sec !in m.budgets {
      var c := a.(cpus := m.cpus[i := Busy(m.now, true, Create)]);
      assert Advance(a, i) == c by { assert a.cpus[i := c.cpus[i]] == c.cpus; }
      Then(s, c, Move(i));
      var d := a.(cpus := m.cpus[i := Busy(m.now, true, Reread)], budgets := b);
      assert Advance(c, i) == d by { assert c.cpus[i := d.cpus[i]] == d.cpus; }
      Then(s, d, Move(i));
      assert d.cpus[i := Busy(m.now, true, Check)] == m.cpus[i := Busy(m.now, true, Check)];
    }
    var e := a.(cpus := m.cpus[i := Busy(m.now, true, Check)], budgets := b);
    assert Reaches(s, e) by { assert a.cpus[i := e.cpus[i]] == e.cpus; }
    Then(s, e, Move(i));
    assert e.cpus[i := PastCheck(m.now)] == m.cpus[i := PastCheck(m.now)];
  }

  lemma PassOne(s: State, rate: nat, n: nat, now: nat, k: nat, j: nat)
    requires Reaches(s, Held(rate, n, now, k, j)) && j < n && k < rate
    ensures Reaches(s, Held(rate, n, now, k, j + 1))
  {
    hide Reaches;
    var m, r := Held(rate, n, now, k, j), Held(rate, n, now, k, j + 1);
    Passes(s, m, j);
    assert m.cpus[j := PastCheck(now)] == r.cpus;
    assert (if now / SECOND in m.budgets then m.budgets else m.budgets[now / SECOND := 0]) == r.budgets;
  }

  lemma FillOne(s: State, rate: nat, n: nat, now: nat, k: nat)
    requires Reaches(s, Held(rate, n, now, k, 0)) && 0 < n && k < rate
    ensures Reaches(s, Held(rate, n, now, k + 1, 0))
  {
    hide Reaches;
    PassOne(s, rate, n, now, k, 0);
    var m, r := Held(rate, n, now, k, 1), Held(rate, n, now, k + 1, 0);
    assert m.cpus[0] == PastCheck(now);
    Then(s, m, Move(0));
    assert m.cpus[0 := Idle] == r.cpus;
    assert m.budgets[now / SECOND := k + 1] == r.budgets;
    assert Advance(m, 0) == r;
  }

  lemma DrainOne(s: State, rate: nat, n: nat, now: nat, k: nat, j: nat)
    requires Reaches(s, Drained(rate, n, now, k, j)) && j < n
    ensures Reaches(s, Drained(rate, n, now, k, j + 1))
  {
    hide Reaches;
    var m, r := Drained(rate, n, now, k, j), Drained(rate, n, now, k, j + 1);
    assert m.cpus[j] == PastCheck(now);
    Then(s, m, Move(j));
    assert m.cpus[j := Idle] == r.cpus;
    assert m.budgets[now / SECOND := k + j + 1] == r.budgets;
    assert Advance(m, j) == r;
  }

  lemma {:induction false} Fill(s: State, rate: nat, n: nat, now: nat, k: nat)
    requires Reaches(s, Held(rate, n, now, 0, 0)) && 0 < n && k <= rate
    ensures Reaches(s, Held(rate, n, now, k, 0))
  {
    hide Reaches;
    if k > 0 {
      Fill(s, rate, n, now, k - 1);
      FillOne(s, rate, n, now, k - 1);
    }
  }

  lemma {:induction false} PassAll(s: State, rate: nat, n: nat, now: nat, k: nat, j: nat)
    requires Reaches(s, Held(rate, n, now, k, 0)) && j <= n && k < rate
    ensures Reaches(s, Held(rate, n, now, k, j))
  {
    hide Reaches;
    if j > 0 {
      PassAll(s, rate, n, now, k, j - 1);
      PassOne(s, rate, n, now, k, j - 1);
    }
  }

  lemma {:induction false} DrainAll(s: State, rate: nat, n: nat, now: nat, k: nat, j: nat)
    requires Reaches(s, Drained(rate, n, now, k, 0)) && j <= n
    ensures Reaches(s, Drained(rate, n, now, k, j))
  {
    hide Reaches;
    if j > 0 {
      DrainAll(s, rate, n, now, k, j - 1);
      DrainOne(s, rate, n, now, k, j - 1);
    }
  }

  lemma {:induction false} CopiesCounted(d: Detail, k: nat)
    ensures Count(Copies(d, k), InSecond(d.sec)) == k
  {
    if k > 0 {
      CopiesCounted(d, k - 1);
      CountAppend(Copies(d, k - 1), d, InSecond(d.sec));
    }
  }

  /** For every rate and number of CPUs the bound of one extra admission per other CPU is
      attained, so no smaller bound holds. */
  lemma OvershootIsAttained(rate: nat, cpus: nat, now: nat) returns (steps: seq<Step>)
    requires rate >= 1 && cpus >= 1
    ensures Possible(Start(rate, cpus, now), steps)
    ensures Admitted(After(Start(rate, cpus, now), steps), now / SECOND) == rate + cpus - 1
  {
    var s, k := Start(rate, cpus, now), rate - 1;
    AtStart(s);
    assert s == Held(rate, cpus, now, 0, 0) by { assert s.cpus == Held(rate, cpus, now, 0, 0).cpus; }
    Fill(s, rate, cpus, now, k);
    PassAll(s, rate, cpus, now, k, cpus);
    assert Held(rate, cpus, now, k, cpus) == Drained(rate, cpus, now, k, 0) by {
      assert Held(rate, cpus, now, k, cpus).cpus == Drained(rate, cpus, now, k, 0).cpus;
    }
    DrainAll(s, rate, cpus, now, k, cpus);
    var r := Drained(rate, cpus, now, k, cpus);
    steps :| Possible(s, steps) && After(s, steps) == r;
    CopiesCounted(Detail(now / SECOND, true), k + cpus);
  }
}
