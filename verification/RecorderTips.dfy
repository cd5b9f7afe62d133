/** Where the entries of a rollup can be continued, and how aggregates added to it move those tips. */
module RecorderTips {
  import opened Telemetry
  import opened RecorderSpec

  /** A family and the end of one of its entries. */
  type Tip = (string, nat)

  /** Counted for one family, or for all. */
  predicate Of(m: Metric, f: Option<string>) {
    f.None? || m.family == f.value
  }

  function Tips(ms: seq<Metric>, f: Option<string>): multiset<Tip> {
    if |ms| == 0 then multiset{}
    else
      var m := ms[|ms| - 1];
      if Of(m, f) then Tips(ms[..|ms| - 1], f) + multiset{(m.family, m.end)} else Tips(ms[..|ms| - 1], f)
  }

  /** A metric moves the tip it continues, or adds one. */
  function Join(tips: multiset<Tip>, m: Metric, f: Option<string>): multiset<Tip> {
    if Of(m, f) then tips - multiset{(m.family, m.start)} + multiset{(m.family, m.end)} else tips
  }

  function JoinAll(tips: multiset<Tip>, ms: seq<Metric>, f: Option<string>): multiset<Tip>
    decreases |ms|
  {
    if |ms| == 0 then tips else JoinAll(Join(tips, ms[0], f), ms[1..], f)
  }

  lemma {:induction false} JoinMonotone(a: multiset<Tip>, b: multiset<Tip>, ms: seq<Metric>, f: Option<string>)
    requires a <= b
    ensures JoinAll(a, ms, f) <= JoinAll(b, ms, f)
    decreases |ms|
  {
    if |ms| > 0 {
      JoinMonotone(Join(a, ms[0], f), Join(b, ms[0], f), ms[1..], f);
    }
  }

  lemma {:induction false} JoinConcat(tips: multiset<Tip>, a: seq<Metric>, b: seq<Metric>, f: Option<string>)
    ensures JoinAll(tips, a + b, f) == JoinAll(JoinAll(tips, a, f), b, f)
    decreases |a|
  {
    if |a| == 0 {
      assert a + b == b;
    } else {
      assert (a + b)[0] == a[0] && (a + b)[1..] == a[1..] + b;
      JoinConcat(Join(tips, a[0], f), a[1..], b, f);
    }
  }

  lemma {:induction false} JoinGrows(tips: multiset<Tip>, ms: seq<Metric>, f: Option<string>)
    ensures |tips| <= |JoinAll(tips, ms, f)|
    decreases |ms|
  {
    if |ms| > 0 {
      JoinGrows(Join(tips, ms[0], f), ms[1..], f);
    }
  }

  lemma {:induction false} TipAt(ms: seq<Metric>, f: Option<string>, family: string, end: nat)
    requires f.Some? ==> f.value == family
    ensures (family, end) in Tips(ms, f) <==> exists i :: 0 <= i < |ms| && ms[i].family == family && ms[i].end == end
  {
    if |ms| > 0 {
      var n := |ms| - 1;
      TipAt(ms[..n], f, family, end);
      if i :| 0 <= i < |ms| && ms[i].family == family && ms[i].end == end {
        assert i < n ==> ms[..n][i] == ms[i];
      }
    }
  }

  lemma {:induction false} TipPerEntry(ms: seq<Metric>)
    ensures |Tips(ms, None)| == |ms|
  {
    if |ms| > 0 {
      TipPerEntry(ms[..|ms| - 1]);
    }
  }

  lemma TipsAppend(ms: seq<Metric>, m: Metric, f: Option<string>)
    ensures Tips(ms + [m], f) == if Of(m, f) then Tips(ms, f) + multiset{(m.family, m.end)} else Tips(ms, f)
  {
    assert (ms + [m])[..|ms|] == ms;
  }

  lemma {:induction false} TipsUpdate(ms: seq<Metric>, i: nat, x: Metric, f: Option<string>)
    requires i < |ms| && x.family == ms[i].family
    ensures Of(x, f) ==>
              (ms[i].family, ms[i].end) in Tips(ms, f) &&
              Tips(ms[i := x], f) == Tips(ms, f) - multiset{(ms[i].family, ms[i].end)} + multiset{(x.family, x.end)}
    ensures !Of(x, f) ==> Tips(ms[i := x], f) == Tips(ms, f)
    decreases |ms|
  {
    hide Tips;
    var n := |ms| - 1;
    var front, last := ms[..n], ms[n];
    assert ms == front + [last];
    TipsAppend(front, last, f);
    if i == n {
      assert ms[i := x] == front + [x];
      TipsAppend(front, x, f);
      Replaces(Tips(front, f), (last.family, last.end), (x.family, x.end), (x.family, x.end));
    } else {
      assert ms[i := x] == front[i := x] + [last];
      TipsAppend(front[i := x], last, f);
      TipsUpdate(front, i, x, f);
      Replaces(Tips(front, f), (ms[i].family, ms[i].end), (x.family, x.end), (last.family, last.end));
    }
  }

  lemma AddTips(a: Seg, m: Metric, f: Option<string>)
    ensures Tips(AddToRollup(a, m).metrics, f) == Join(Tips(a.metrics, f), m, f)
  {
    var i := MergeIndex(a.metrics, m);
    if i < |a.metrics| {
      TipsUpdate(a.metrics, i, Merge(a.metrics[i], m), f);
    } else {
      if Of(m, f) {
        TipAt(a.metrics, f, m.family, m.start);
      }
      TipsAppend(a.metrics, m, f);
    }
  }

  /** Adding aggregates to a rollup joins them to its tips, one by one. */
  lemma {:induction false} AddAllTips(a: Seg, ms: seq<Metric>, f: Option<string>)
    ensures Tips(AddAll(a, ms).metrics, f) == JoinAll(Tips(a.metrics, f), ms, f)
    decreases |ms|
  {
    if |ms| > 0 {
      AddTips(a, ms[0], f);
      AddAllTips(AddToRollup(a, ms[0]), ms[1..], f);
    }
  }
}
