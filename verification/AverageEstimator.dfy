/** The estimator as the program runs it: accumulators and audit intervals updated step by step.
    Every method is tied to the functions of `ConsumptionAverage`. */
module AverageEstimator {
  import opened Numbers
  import opened Options
  import opened Samples
  import opened TransientFilter
  import opened ConsumptionTypes
  import opened ConsumptionAverage

  /** The loop that looks ahead of a moderate rise. */
  method BaselineRise(samples: seq<Sample>, index: nat, baseline: real) returns (kind: RiseKind)
    requires 1 <= index < |samples|
    ensures kind == BaselineRiseKind(samples, index, baseline)
  {
    var timestamp, weight := samples[index].t, samples[index].w;
    if weight - baseline > TRANSIENT_MAX_G || timestamp - samples[index - 1].t > MAX_FILTER_STEP_SEC {
      return Persistent;
    }
    var previousT := timestamp;
    for j := index + 1 to |samples|
      invariant previousT == samples[j - 1].t
      invariant RiseFrom(samples, index, j, baseline) == RiseFrom(samples, index, index + 1, baseline)
    {
      var nextT, nextWeight := samples[j].t, samples[j].w;
      if || nextT - timestamp > TRANSIENT_WINDOW_SEC
         || !(0.0 < nextT - previousT <= MAX_FILTER_STEP_SEC)
         || nextWeight - baseline > TRANSIENT_MAX_G {
        return Persistent;
      }
      var allowedLoss := MAX_RATE_G_PER_HOUR * (nextT - timestamp) / 3600.0;
      if -allowedLoss - RETURN_TOLERANCE_G <= nextWeight - baseline <= RETURN_TOLERANCE_G {
        return Transient;
      }
      if nextT - timestamp >= TRANSIENT_WINDOW_SEC {
        return Persistent;
      }
      previousT := nextT;
    }
    return Pending;
  }

  class Estimator {
    var elapsedHours: real
    var change: real
    var windowHours: real
    var windowChange: real
    var windowIntervals: seq<Interval>
    var intervals: seq<Interval>
    var filteredSamples: nat
    var baselineWeight: real
    var previous: Sample

    function View(): Tally
      reads this
    {
      Tally(elapsedHours, change, windowHours, windowChange, windowIntervals, intervals, filteredSamples)
    }

    /** Samples `1..n` have been taken in and none of them is waiting for confirmation. */
    ghost predicate At(ordered: seq<Sample>, n: nat)
      requires n < |ordered|
      reads this
    {
      && View() == Walk(ordered, n)
      && previous == ordered[n] && baselineWeight == BaselineAt(ordered, n)
      && forall k :: 1 <= k <= n ==> !Kind(ordered, k).Unconfirmed?
    }

    constructor (first: Sample)
      ensures View() == EMPTY && baselineWeight == first.w && previous == first
    {
      elapsedHours, change, windowHours, windowChange := 0.0, 0.0, 0.0, 0.0;
      windowIntervals, intervals, filteredSamples := [], [], 0;
      baselineWeight, previous := first.w, first;
    }

    method FinishWindow()
      modifies this
      ensures View() == ConsumptionAverage.FinishWindow(old(View()))
      ensures baselineWeight == old(baselineWeight) && previous == old(previous)
    {
      var allowed := MAX_RATE_G_PER_HOUR * windowHours;
      var included := -windowChange <= allowed || IsClose(-windowChange, allowed);
      if included {
        elapsedHours := elapsedHours + windowHours;
        change := change + windowChange;
      }
      ghost var target := if included then windowIntervals else Rejected(windowIntervals);
      for k := 0 to |windowIntervals|
        invariant windowIntervals == old(windowIntervals)
        invariant intervals == old(intervals) + target[..k]
        modifies this`intervals
      {
        var interval := windowIntervals[k];
        if !included {
          interval := interval.(included := false, reason := RateLimit, caption := Caption(RateLimit), change := 0.0);
        }
        intervals := intervals + [interval];
      }
      windowIntervals := [];
      windowHours := 0.0;
      windowChange := 0.0;
    }

    /** A step that is neither without time, nor a gap, nor pending: its time is counted, and its
        drop if it is one. */
    method CountStep(ordered: seq<Sample>, index: nat, riseKind: Option<RiseKind>)
      requires 1 <= index < |ordered|
      requires previous == ordered[index - 1] && baselineWeight == BaselineAt(ordered, index - 1)
      requires var v := Kind(ordered, index); !v.NoTime? && !v.DataGap? && !v.Unconfirmed?
      requires ordered[index].w - baselineWeight > WEIGHT_INCREASE_RESET_G ==>
        riseKind == Some(BaselineRiseKind(ordered, index, baselineWeight))
      modifies this
      ensures View() == Counted(ordered, index, old(View()))
      ensures previous == ordered[index] && baselineWeight == BaselineAt(ordered, index)
    {
      var timestamp, weight := ordered[index].t, ordered[index].w;
      var difference := weight - baselineWeight;
      var intervalHours := (timestamp - previous.t) / 3600.0;
      windowHours := windowHours + intervalHours;
      var interval := Labelled(previous.t, timestamp, true, Consumption, 0.0);
      var allowedDrop := MAX_RATE_G_PER_HOUR * Max(1.0, intervalHours);
      if difference < -allowedDrop && !IsClose(-difference, allowedDrop) {
        interval := interval.(reason := AbruptDrop, caption := Caption(AbruptDrop));
        baselineWeight := weight;
      } else if difference < 0.0 {
        windowChange := windowChange + difference;
        interval := interval.(change := difference);
        baselineWeight := weight;
      } else if difference > WEIGHT_INCREASE_RESET_G {
        if riseKind == Some(Transient) {
          interval := interval.(reason := TransientRise, caption := Caption(TransientRise));
          filteredSamples := filteredSamples + 1;
        } else {
          interval := interval.(reason := Rise, caption := Caption(Rise));
          baselineWeight := weight;
        }
      }
      windowIntervals := windowIntervals + [interval];
      previous := ordered[index];
    }

    /** A step without time or over a gap: the window closes and the baseline is taken anew. */
    method StartAfresh(ordered: seq<Sample>, index: nat)
      requires 1 <= index < |ordered| && At(ordered, index - 1)
      requires Kind(ordered, index).NoTime? || Kind(ordered, index).DataGap?
      modifies this
      ensures At(ordered, index)
    {
      var timestamp, weight := ordered[index].t, ordered[index].w;
      var intervalSeconds := timestamp - previous.t;
      WalkAfresh(ordered, index);
      FinishWindow();
      if intervalSeconds > 0.0 {
        intervals := intervals + [Labelled(previous.t, timestamp, false, Gap, 0.0)];
      }
      baselineWeight, previous := weight, ordered[index];
    }

    /** A rise that only later samples can settle: everything from here on is left open. */
    method StopAtRise(ordered: seq<Sample>, index: nat)
      requires 1 <= index < |ordered| && At(ordered, index - 1) && Kind(ordered, index).Unconfirmed?
      modifies this
      ensures ConsumptionAverage.FinishWindow(View()) == LastTally(ordered)
    {
      LastAtRise(ordered, index);
      FinishWindow();
      intervals := intervals + [Labelled(previous.t, ordered[|ordered| - 1].t, false, PendingRise, 0.0)];
    }

    /** One turn of the estimator's loop; `pending` says that the loop ends here. */
    method Observe(ordered: seq<Sample>, index: nat) returns (pending: bool)
      requires 1 <= index < |ordered| && At(ordered, index - 1)
      modifies this
      ensures if pending then ConsumptionAverage.FinishWindow(View()) == LastTally(ordered) else At(ordered, index)
    {
      var timestamp, weight := ordered[index].t, ordered[index].w;
      var intervalSeconds := timestamp - previous.t;
      if intervalSeconds <= 0.0 || intervalSeconds > MAX_GAP_SEC {
        StartAfresh(ordered, index);
        return false;
      }
      var riseKind := None;
      if weight - baselineWeight > WEIGHT_INCREASE_RESET_G {
        var kind := BaselineRise(ordered, index, baselineWeight);
        riseKind := Some(kind);
      }
      if riseKind == Some(Pending) {
        StopAtRise(ordered, index);
        return true;
      }
      CountStep(ordered, index, riseKind);
      if WindowFull(windowHours) {
        FinishWindow();
      }
      return false;
    }
  }

  function WithInterval(t: Tally, v: Interval): Tally { t.(closed := t.closed + [v]) }

  lemma WalkAfresh(s: seq<Sample>, i: nat)
    requires 1 <= i < |s| && (Kind(s, i).NoTime? || Kind(s, i).DataGap?)
    ensures var f := ConsumptionAverage.FinishWindow(Walk(s, i - 1));
      Walk(s, i) == if s[i].t - s[i - 1].t > 0.0 then WithInterval(f, Labelled(s[i - 1].t, s[i].t, false, Gap, 0.0)) else f
    ensures BaselineAt(s, i) == s[i].w && (Kind(s, i).DataGap? <==> s[i].t - s[i - 1].t > 0.0)
  {
  }

  lemma LastAtRise(s: seq<Sample>, i: nat)
    requires 1 <= i < |s| && Kind(s, i).Unconfirmed? && forall k :: 1 <= k < i ==> !Kind(s, k).Unconfirmed?
    ensures var f := ConsumptionAverage.FinishWindow(Walk(s, i - 1));
      LastTally(s) == ConsumptionAverage.FinishWindow(
        WithInterval(f, Labelled(s[i - 1].t, s[|s| - 1].t, false, PendingRise, 0.0)))
  {
    FirstIs(s, 1, i);
  }

  lemma {:induction false} FirstIs(s: seq<Sample>, from: nat, n: nat)
    requires 1 <= from <= n <= |s| && (n < |s| ==> Kind(s, n).Unconfirmed?)
    requires forall k :: from <= k < n ==> !Kind(s, k).Unconfirmed?
    ensures FirstUnconfirmed(s, from) == n
    decreases n - from
  {
    if from < n { FirstIs(s, from + 1, n); }
  }

  /** The estimator's loop over the filtered samples. */
  method RunOver(filtered: seq<Sample>) returns (run: Estimator)
    requires filtered != []
    ensures fresh(run) && run.View() == LastTally(filtered)
  {
    run := new Estimator(filtered[0]);
    var index, pending := 1, false;
    while index < |filtered| && !pending
      invariant 1 <= index <= |filtered| && fresh(run)
      invariant if pending then ConsumptionAverage.FinishWindow(run.View()) == LastTally(filtered)
                else run.At(filtered, index - 1)
      decreases |filtered| - index, !pending
    {
      pending := run.Observe(filtered, index);
      index := if pending then index else index + 1;
    }
    if !pending { FirstIs(filtered, 1, index); }
    run.FinishWindow();
  }

  /** The whole estimator: rate and audit trail in one pass over the readings. */
  method CalculateAverageConsumption(readings: seq<RawSample>) returns (result: Estimate)
    ensures result == AverageConsumption(readings)
  {
    var ordered := Ordered(readings);
    if |ordered| < 2 {
      return Estimate(0.0, 0.0, [], None, 0);
    }
    var filtered := FilterTransientWeights(ordered);
    var altered := AlteredCount(ordered, filtered);
    var run := RunOver(filtered);
    result := Estimate(run.elapsedHours * 3600.0, run.change, run.intervals,
                       if run.elapsedHours > 0.0 then Some(run.change / run.elapsedHours) else None,
                       altered + run.filteredSamples);
    assert run.View() == LastTally(filtered);
  }
}
