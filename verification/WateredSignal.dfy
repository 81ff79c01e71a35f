/** Exactness of the estimator across waterings: whatever the plant loses between them is measured exactly. */
module WateredSignal {
  import opened Numbers
  import opened Options
  import opened Samples
  import opened TransientFilter
  import opened ConsumptionTypes
  import opened ConsumptionAverage
  import opened ConsumptionAudit
  import opened CleanSignal
  import opened BaselineLaws

  /** A watering: within an hour more than 30 g heavier, or more than 10 g after a missing minute. */
  predicate WateringStep(a: Sample, b: Sample) {
    0.0 < b.t - a.t <= 3600.0 && (b.w - a.w > 30.0 || (b.w - a.w > 10.0 && b.t - a.t > 60.0))
  }

  /** A signal that falls at most 25 g/h between waterings, without gaps. */
  predicate Watered(s: seq<Sample>) {
    |s| >= 2 && forall i :: 1 <= i < |s| ==> CleanStep(s[i - 1], s[i]) || WateringStep(s[i - 1], s[i])
  }

  /** What is lost in the step to sample `i`. */
  function Loss(s: seq<Sample>, i: nat): real
    requires 1 <= i < |s|
  {
    if s[i].w < s[i - 1].w then s[i].w - s[i - 1].w else 0.0
  }

  function Losses(s: seq<Sample>, n: nat): real
    requires n < |s|
  {
    if n == 0 then 0.0 else Losses(s, n - 1) + Loss(s, n)
  }

  /** The interval of every step, as it is listed. */
  predicate Lists(vs: seq<Interval>, s: seq<Sample>, n: nat)
    requires n < |s|
  {
    |vs| == n && forall i :: 1 <= i <= n ==>
      ListedAs(vs[i - 1], s, i, if s[i].w > s[i - 1].w then Rise else Consumption, Loss(s, i))
  }

  lemma {:induction false} FilterLeavesWateredAlone(s: seq<Sample>, i: nat)
    requires Watered(s) && 1 <= i <= |s|
    ensures FilteredFrom(s, i) == s[i..]
    decreases |s| - i
  {
    if i < |s| - 1 {
      assert CleanStep(s[i - 1], s[i]) || WateringStep(s[i - 1], s[i]);
      assert !Departs(s[i - 1], s[i]);
      FilterLeavesWateredAlone(s, i + 1);
      assert s[i..] == [s[i]] + s[i + 1..];
    }
  }

  /** Up to sample `n` all of the time and all of the losses are counted. */
  ghost predicate AllCounted(s: seq<Sample>, n: nat, t: Tally)
    requires n < |s|
  {
    && Lists(t.closed + t.window, s, n)
    && (t.hours + t.windowHours) * 3600.0 == s[n].t - s[0].t
    && t.change + t.windowChange == Losses(s, n)
    && 0.0 <= t.windowHours && t.windowChange <= 0.0 && -t.windowChange <= 25.0 * t.windowHours && t.filtered == 0
  }

  lemma WateredStep(s: seq<Sample>, n: nat)
    requires Watered(s) && 1 <= n < |s| && BaselineAt(s, n - 1) == s[n - 1].w
    ensures Steps(s, n) && BaselineAt(s, n) == s[n].w && !Kind(s, n).Unconfirmed? && !Kind(s, n).NoTime? && !Kind(s, n).DataGap?
    ensures !(Moderate(s, n, s[n - 1].w) && (ComesBack(s, n, s[n - 1].w) || StillOpen(s, n, s[n - 1].w)))
    ensures s[n].w < s[n - 1].w ==> s[n - 1].w - 25.0 <= s[n].w
    ensures s[n].w > s[n - 1].w ==> s[n].w > s[n - 1].w + 10.0
    ensures -Loss(s, n) <= 25.0 * ((s[n].t - s[n - 1].t) / 3600.0) && Loss(s, n) <= 0.0
  {
    assert CleanStep(s[n - 1], s[n]) || WateringStep(s[n - 1], s[n]);
    NextBaseline(s, n);
    WaitsExactlyWhen(s, n);
  }

  lemma ListsOneMore(vs: seq<Interval>, v: Interval, s: seq<Sample>, n: nat)
    requires 1 <= n < |s| && Lists(vs, s, n - 1)
    requires ListedAs(v, s, n, if s[n].w > s[n - 1].w then Rise else Consumption, Loss(s, n))
    ensures Lists(vs + [v], s, n)
  {
    assert forall k :: 0 <= k < n - 1 ==> (vs + [v])[k] == vs[k];
  }

  lemma CountedOneMore(s: seq<Sample>, n: nat, t: Tally)
    requires Watered(s) && 1 <= n < |s| && BaselineAt(s, n - 1) == s[n - 1].w && AllCounted(s, n - 1, t)
    ensures AllCounted(s, n, Counted(s, n, t))
  {
    WateredStep(s, n);
    StepIsTakenFor(s, n);
    StepIsListed(s, n, t);
    var c := Counted(s, n, t);
    var v := c.window[|t.window|];
    assert c.window == t.window + [v];
    assert t.closed + (t.window + [v]) == t.closed + t.window + [v];
    ListsOneMore(t.closed + t.window, v, s, n);
  }

  lemma ClosedCountsTheSame(s: seq<Sample>, n: nat, t: Tally)
    requires n < |s| && AllCounted(s, n, t)
    ensures AllCounted(s, n, FinishWindow(t)) && FinishWindow(t).window == []
    ensures FinishWindow(t).windowHours == FinishWindow(t).windowChange == 0.0
  {
    WindowVerdict(t);
    var f := FinishWindow(t);
    assert f.closed + f.window == t.closed + t.window;
  }

  lemma {:induction false} WateredWalk(s: seq<Sample>, n: nat)
    requires Watered(s) && n < |s|
    ensures BaselineAt(s, n) == s[n].w && AllCounted(s, n, Walk(s, n)) && (n > 0 ==> !Kind(s, n).Unconfirmed?)
  {
    if n > 0 {
      WateredWalk(s, n - 1);
      WateredStep(s, n);
      CountedOneMore(s, n, Walk(s, n - 1));
      ClosedCountsTheSame(s, n, Counted(s, n, Walk(s, n - 1)));
    }
  }

  lemma {:induction false} WateredNeverPending(s: seq<Sample>, i: nat)
    requires Watered(s) && 1 <= i <= |s|
    ensures FirstUnconfirmed(s, i) == |s|
    decreases |s| - i
  {
    if i < |s| {
      WateredWalk(s, i);
      WateredNeverPending(s, i + 1);
    }
  }

  lemma {:induction false} WateredIsTimed(s: seq<Sample>, i: nat, j: nat)
    requires Watered(s) && i < j < |s|
    ensures s[i].t < s[j].t
    decreases j
  {
    assert CleanStep(s[j - 1], s[j]) || WateringStep(s[j - 1], s[j]);
    if i + 1 < j { WateredIsTimed(s, i, j - 1); }
  }

  /** All time is counted, the change is what was lost, the rate their quotient, and every step is listed. */
  predicate MeasuredExactly(e: Estimate, s: seq<Sample>)
    requires |s| >= 2 && s[0].t < s[|s| - 1].t
  {
    var last := |s| - 1;
    && MeasuredOver(e, Losses(s, last), s[0].t, s[last].t)
    && Lists(e.intervals, s, last) && e.filteredSamples == 0
  }

  lemma WateredTally(s: seq<Sample>)
    requires Watered(s)
    ensures s[0].t < s[|s| - 1].t && MeasuredExactly(Summary(LastTally(s), 0), s)
  {
    var last := |s| - 1;
    WateredIsTimed(s, 0, last);
    WateredNeverPending(s, 1);
    WateredWalk(s, last);
    ClosedCountsTheSame(s, last, Walk(s, last));
    TallyIsExact(s, LastTally(s));
  }

  lemma TallyIsExact(s: seq<Sample>, t: Tally)
    requires |s| >= 2 && s[0].t < s[|s| - 1].t && AllCounted(s, |s| - 1, t)
    requires t.window == [] && t.windowHours == t.windowChange == 0.0
    ensures MeasuredExactly(Summary(t, 0), s)
  {
    assert t.closed + t.window == t.closed;
    assert t.hours == (s[|s| - 1].t - s[0].t) / 3600.0;
  }

  /** However often the plant is watered: the filter leaves the signal alone, all of the time counts, the change
      is the sum of all losses between the waterings, and the rate is their quotient. */
  lemma WateredSignalIsExact(s: seq<Sample>)
    requires Watered(s) && Positive(s)
    ensures Filtered(s) == s && s[0].t < s[|s| - 1].t && MeasuredExactly(AverageConsumption(AsRaw(s)), s)
  {
    FilterLeavesWateredAlone(s, 1);
    assert s == [s[0]] + s[1..];
    forall i, j | 0 <= i < j < |s| ensures Before(s[i], s[j]) { WateredIsTimed(s, i, j); }
    OrderedOfRaw(s);
    NothingAltered(s);
    WateredTally(s);
  }

  // ----- two stretches -----

  lemma {:induction false} LossesOfClean(s: seq<Sample>, n: nat)
    requires Clean(s) && n < |s|
    ensures Losses(s, n) == s[n].w - s[0].w
  {
    if n > 0 {
      LossesOfClean(s, n - 1);
      assert CleanStep(s[n - 1], s[n]);
    }
  }

  lemma {:induction false} LossesOfPrefix(a: seq<Sample>, b: seq<Sample>, n: nat)
    requires n < |a|
    ensures Losses(a + b, n) == Losses(a, n)
  {
    if n > 0 {
      LossesOfPrefix(a, b, n - 1);
      assert (a + b)[n] == a[n] && (a + b)[n - 1] == a[n - 1];
    }
  }

  lemma {:induction false} LossesJoin(a: seq<Sample>, b: seq<Sample>, n: nat)
    requires a != [] && n < |b| && a[|a| - 1].w <= b[0].w
    ensures Losses(a + b, |a| + n) == Losses(a, |a| - 1) + Losses(b, n)
  {
    var s := a + b;
    assert s[|a| + n] == b[n];
    if n == 0 {
      LossesOfPrefix(a, b, |a| - 1);
      assert s[|a| - 1] == a[|a| - 1];
    } else {
      LossesJoin(a, b, n - 1);
      assert s[|a| + n - 1] == b[n - 1];
    }
  }

  lemma JoinedIsWatered(a: seq<Sample>, b: seq<Sample>)
    requires Clean(a) && Clean(b) && WateringStep(a[|a| - 1], b[0])
    ensures Watered(a + b)
  {
    var s := a + b;
    forall i | 1 <= i < |s|
      ensures CleanStep(s[i - 1], s[i]) || WateringStep(s[i - 1], s[i])
    {
      if i < |a| {
        assert CleanStep(a[i - 1], a[i]);
      } else if i > |a| {
        assert CleanStep(b[i - |a| - 1], b[i - |a|]);
      }
    }
  }

  lemma JoinedIsPositive(a: seq<Sample>, b: seq<Sample>)
    requires Positive(a) && Positive(b)
    ensures Positive(a + b)
  {
  }

  lemma LossesOfBoth(a: seq<Sample>, b: seq<Sample>)
    requires Clean(a) && Clean(b) && a[|a| - 1].w <= b[0].w
    ensures Losses(a + b, |a| + |b| - 1) == (a[|a| - 1].w - a[0].w) + (b[|b| - 1].w - b[0].w)
  {
    LossesOfClean(a, |a| - 1);
    LossesOfClean(b, |b| - 1);
    LossesJoin(a, b, |b| - 1);
  }

  lemma EndsOfJoin(a: seq<Sample>, b: seq<Sample>)
    requires a != [] && b != []
    ensures (a + b)[0] == a[0] && (a + b)[|a| + |b| - 1] == b[|b| - 1]
  {
  }

  lemma WateredIsMeasured(s: seq<Sample>, n: nat, first: Sample, last: Sample, lost: real)
    requires Watered(s) && Positive(s) && n == |s| - 1 && s[0] == first && s[n] == last && lost == Losses(s, n)
    ensures first.t < last.t && MeasuredOver(AverageConsumption(AsRaw(s)), lost, first.t, last.t)
  {
    WateredSignalIsExact(s);
  }

  /** The figures of an estimate that has counted everything from `from` to `to`. */
  predicate MeasuredOver(e: Estimate, lost: real, from: real, to: real)
    requires from < to
  {
    e.countedSeconds == to - from && e.change == lost && e.rate == Some(lost / ((to - from) / 3600.0))
  }

  /** Two clean stretches with a watering between them: all of the time counts, the change is the sum of their
      two losses, and the rate is the quotient. */
  lemma TwoStretches(a: seq<Sample>, b: seq<Sample>, lost: real)
    requires Clean(a) && Clean(b) && WateringStep(a[|a| - 1], b[0]) && Positive(a) && Positive(b)
    requires lost == (a[|a| - 1].w - a[0].w) + (b[|b| - 1].w - b[0].w)
    ensures a[0].t < b[|b| - 1].t && MeasuredOver(AverageConsumption(AsRaw(a + b)), lost, a[0].t, b[|b| - 1].t)
  {
    JoinedIsWatered(a, b);
    JoinedIsPositive(a, b);
    EndsOfJoin(a, b);
    LossesOfBoth(a, b);
    WateredIsMeasured(a + b, |a| + |b| - 1, a[0], b[|b| - 1], lost);
  }
}
