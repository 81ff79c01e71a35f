/** Exactness of the estimator: a clean signal is measured exactly, and a steady loss is still
    measured exactly when short excursions of the scale are laid over it. */
module CleanSignal {
  import opened Numbers
  import opened Options
  import opened Samples
  import opened TransientFilter
  import opened ConsumptionTypes
  import opened ConsumptionAverage
  import opened ConsumptionAudit

  predicate CleanStep(a: Sample, b: Sample) {
    0.0 < b.t - a.t <= MAX_GAP_SEC && 0.0 <= a.w - b.w <= AllowedLoss(b.t - a.t)
  }

  /** Strictly advancing times without gaps, and a weight that only falls, at no more than 25 g/h. */
  predicate Clean(s: seq<Sample>) {
    |s| >= 2 && forall i :: 1 <= i < |s| ==> CleanStep(s[i - 1], s[i])
  }

  lemma {:induction false} CleanIsTimed(s: seq<Sample>, i: nat, j: nat)
    requires Clean(s) && i < j < |s|
    ensures s[i].t < s[j].t && s[j].w <= s[i].w
    decreases j
  {
    if i + 1 < j { CleanIsTimed(s, i, j - 1); }
  }

  lemma {:induction false} FilterLeavesCleanAlone(s: seq<Sample>, i: nat)
    requires Clean(s) && 1 <= i <= |s|
    ensures FilteredFrom(s, i) == s[i..]
    decreases |s| - i
  {
    if i < |s| - 1 {
      assert !Departs(s[i - 1], s[i]);
      FilterLeavesCleanAlone(s, i + 1);
      assert s[i..] == [s[i]] + s[i + 1..];
    }
  }

  predicate AllIncluded(vs: seq<Interval>) {
    forall k :: 0 <= k < |vs| ==> vs[k].included && vs[k].reason == Consumption
  }

  /** From `first` to `last` nothing was rejected or left out. */
  predicate NothingMissing(t: Tally, first: Sample, last: Sample) {
    && (t.hours + t.windowHours) * 3600.0 == last.t - first.t
    && t.change + t.windowChange == last.w - first.w
    && -t.windowChange <= MAX_RATE_G_PER_HOUR * t.windowHours
    && AllIncluded(t.closed) && AllIncluded(t.window) && t.filtered == 0
  }

  lemma CleanKind(s: seq<Sample>, n: nat)
    requires Clean(s) && 1 <= n < |s| && BaselineAt(s, n - 1) == s[n - 1].w
    ensures (Kind(s, n).Drop? || Kind(s, n).Level?) && BaselineAt(s, n) == s[n].w && Booked(s, n) == s[n].w - s[n - 1].w
  {
    assert CleanStep(s[n - 1], s[n]);
  }

  lemma CleanFinish(t: Tally, first: Sample, last: Sample)
    requires NothingMissing(t, first, last)
    ensures NothingMissing(FinishWindow(t), first, last)
    ensures FinishWindow(t).windowHours == FinishWindow(t).windowChange == 0.0
  {
  }

  lemma CleanCounted(s: seq<Sample>, n: nat, t: Tally)
    requires Clean(s) && 1 <= n < |s| && NothingMissing(t, s[0], s[n - 1])
    requires (Kind(s, n).Drop? || Kind(s, n).Level?) && Booked(s, n) == s[n].w - s[n - 1].w
    ensures NothingMissing(Counted(s, n, t), s[0], s[n])
  {
    assert CleanStep(s[n - 1], s[n]);
  }

  /** On a clean signal nothing is reset, rejected or left out, up to sample `n`. */
  lemma {:induction false} CleanWalk(s: seq<Sample>, n: nat)
    requires Clean(s) && n < |s|
    ensures BaselineAt(s, n) == s[n].w && (n > 0 ==> Kind(s, n).Drop? || Kind(s, n).Level?)
    ensures NothingMissing(Walk(s, n), s[0], s[n])
  {
    if n > 0 {
      CleanWalk(s, n - 1);
      CleanKind(s, n);
      CleanCounted(s, n, Walk(s, n - 1));
      CleanFinish(Counted(s, n, Walk(s, n - 1)), s[0], s[n]);
    }
  }

  lemma {:induction false} CleanNeverPending(s: seq<Sample>, i: nat)
    requires Clean(s) && 1 <= i <= |s|
    ensures FirstUnconfirmed(s, i) == |s|
    decreases |s| - i
  {
    if i < |s| {
      CleanWalk(s, i);
      CleanNeverPending(s, i + 1);
    }
  }

  /** The rate between two samples. */
  function EndpointRate(first: Sample, last: Sample): real
    requires first.t < last.t
  {
    (last.w - first.w) / ((last.t - first.t) / 3600.0)
  }

  /** The figures of a span that is measured without loss. */
  predicate Exact(e: Estimate, first: Sample, last: Sample)
    requires first.t < last.t
  {
    && e.countedSeconds == last.t - first.t && e.change == last.w - first.w
    && e.rate == Some(EndpointRate(first, last))
    && AllIncluded(e.intervals)
  }

  lemma CleanTally(s: seq<Sample>, altered: nat)
    requires Clean(s)
    ensures s[0].t < s[|s| - 1].t && Exact(Summary(LastTally(s), altered), s[0], s[|s| - 1])
    ensures LastTally(s).filtered == 0
  {
    var last := |s| - 1;
    CleanIsTimed(s, 0, last);
    CleanNeverPending(s, 1);
    CleanWalk(s, last);
    CleanFinish(Walk(s, last), s[0], s[last]);
    var t := LastTally(s);
    assert t == FinishWindow(Walk(s, last));
    assert t.hours == (s[last].t - s[0].t) / 3600.0;
  }

  lemma {:induction false} NothingAltered(s: seq<Sample>)
    ensures AlteredCount(s, s) == 0
    decreases |s|
  {
    if s != [] { NothingAltered(s[..|s| - 1]); }
  }

  lemma CleanIsSorted(s: seq<Sample>)
    requires Clean(s)
    ensures Sorted(s)
  {
    forall i, j | 0 <= i < j < |s| ensures Before(s[i], s[j]) { CleanIsTimed(s, i, j); }
  }

  /** A clean signal is measured exactly: the filter is the identity, all of the time and all of the
      loss is counted, and the rate is the rate between the two end points. */
  lemma CleanSignalIsExact(s: seq<Sample>)
    requires Clean(s) && Positive(s)
    ensures Filtered(s) == s && s[0].t < s[|s| - 1].t
    ensures var e := AverageConsumption(AsRaw(s)); Exact(e, s[0], s[|s| - 1]) && e.filteredSamples == 0
  {
    FilterLeavesCleanAlone(s, 1);
    assert s == [s[0]] + s[1..];
    assert Filtered(s) == s;
    CleanIsSorted(s);
    OrderedOfRaw(s);
    NothingAltered(s);
    CleanTally(s, 0);
    assert EstimateOf(s) == Summary(LastTally(s), 0);
  }

  // ----- a steady loss with excursions laid over it -----

  predicate OnSlope(base: seq<Sample>, c: real, k: nat)
    requires k < |base|
  {
    base[k].w == base[0].w - c * (base[k].t - base[0].t)
  }

  /** A steady loss of `c` grams a second, at most 25 g/h, without gaps. */
  predicate Steady(base: seq<Sample>, c: real) {
    && |base| >= 2 && 0.0 <= c <= MAX_RATE_G_PER_HOUR / 3600.0
    && (forall k :: 1 <= k < |base| ==> 0.0 < base[k].t - base[k - 1].t <= MAX_GAP_SEC)
    && forall k :: 0 <= k < |base| ==> OnSlope(base, c, k)
  }

  predicate Begins(noise: seq<real>, k: nat) {
    1 <= k < |noise| && noise[k] != 0.0 && noise[k - 1] == 0.0
  }

  /** The stretch of noise that begins at `k` is over at `j`. */
  predicate EndsAt(noise: seq<real>, k: nat, j: nat) {
    k < j < |noise| && noise[j] == 0.0 && forall m :: k <= m < j ==> noise[m] != 0.0
  }

  /** Every stretch of noise is an excursion that the filter confirms at its end. */
  ghost predicate Confirmed(base: seq<Sample>, noise: seq<real>)
    requires |noise| == |base|
  {
    && |noise| >= 2 && noise[0] == 0.0 && noise[|noise| - 1] == 0.0
    && forall k: nat :: Begins(noise, k) ==> ConfirmedAt(base, noise, k)
  }

  ghost predicate ConfirmedAt(base: seq<Sample>, noise: seq<real>, k: nat)
    requires |noise| == |base|
  {
    exists j: nat :: EndsAt(noise, k, j) && Excursion(Shaken(base, noise), k, j)
  }

  function Shaken(base: seq<Sample>, noise: seq<real>): (s: seq<Sample>)
    requires |noise| == |base|
    ensures |s| == |base|
    ensures forall k :: 0 <= k < |s| ==> s[k] == Sample(base[k].t, base[k].w + noise[k])
  {
    seq(|base|, k requires 0 <= k < |base| => Sample(base[k].t, base[k].w + noise[k]))
  }

  lemma NonNegativeProduct(a: real, b: real)
    requires 0.0 <= a && 0.0 <= b
    ensures 0.0 <= a * b
  {
  }

  lemma SteadyLoss(base: seq<Sample>, c: real, i: nat, j: nat)
    requires Steady(base, c) && i <= j < |base|
    ensures base[i].t <= base[j].t && base[i].w - base[j].w == c * (base[j].t - base[i].t)
    ensures 0.0 <= base[i].w - base[j].w <= AllowedLoss(base[j].t - base[i].t)
  {
    if i < j { Increasing(base, i, j); }
    var d := base[j].t - base[i].t;
    assert OnSlope(base, c, i) && OnSlope(base, c, j);
    NonNegativeProduct(c, d);
    NonNegativeProduct(MAX_RATE_G_PER_HOUR / 3600.0 - c, d);
    assert c * (base[j].t - base[0].t) - c * (base[i].t - base[0].t) == c * d;
  }

  lemma SteadyIsClean(base: seq<Sample>, c: real)
    requires Steady(base, c)
    ensures Clean(base)
  {
    forall i | 1 <= i < |base|
      ensures 0.0 <= base[i - 1].w - base[i].w <= AllowedLoss(base[i].t - base[i - 1].t)
    {
      SteadyLoss(base, c, i - 1, i);
    }
  }

  lemma CancelDivision(x: real, d: real, c: real)
    requires d != 0.0
    ensures x / d * (-(c * d)) == -(c * x)
  {
    assert x / d * d == x;
    assert x / d * (-(c * d)) == -(c * (x / d * d));
  }

  /** The straight line between two quiet samples is the steady loss itself. */
  lemma LineIsBase(base: seq<Sample>, c: real, i: nat, j: nat, k: nat)
    requires Steady(base, c) && i <= k < j < |base| && base[i].t < base[j].t
    ensures Line(base[i], base[j], base[k].t) == base[k].w
  {
    SteadyLoss(base, c, i, j);
    SteadyLoss(base, c, i, k);
    CancelDivision(base[k].t - base[i].t, base[j].t - base[i].t, c);
  }

  lemma ExcursionRestored(base: seq<Sample>, c: real, noise: seq<real>, i: nat, j: nat)
    requires |noise| == |base| && Steady(base, c) && EndsAt(noise, i, j)
    requires Excursion(Shaken(base, noise), i, j) && noise[i - 1] == 0.0
    ensures Smoothed(Shaken(base, noise), base, i, j)
  {
    var s := Shaken(base, noise);
    Increasing(base, i - 1, j);
    forall k | i <= k < j ensures base[k] == Moved(s, i, j, k) { LineIsBase(base, c, i - 1, j, k); }
  }

  lemma QuietStep(base: seq<Sample>, c: real, noise: seq<real>, i: nat)
    requires |noise| == |base| && Steady(base, c) && 1 <= i < |base| && noise[i - 1] == 0.0 && noise[i] == 0.0
    ensures !Departs(Shaken(base, noise)[i - 1], Shaken(base, noise)[i])
  {
    SteadyLoss(base, c, i - 1, i);
  }

  lemma {:induction false} NoiseRemovedFrom(base: seq<Sample>, c: real, noise: seq<real>, i: nat)
    requires |noise| == |base| && Steady(base, c) && Confirmed(base, noise)
    requires 1 <= i <= |base| && noise[i - 1] == 0.0
    ensures Planned(Shaken(base, noise), base, i)
    decreases |base| - i
  {
    if i < |base| - 1 {
      if noise[i] == 0.0 {
        QuietStep(base, c, noise, i);
        NoiseRemovedFrom(base, c, noise, i + 1);
      } else {
        assert Begins(noise, i);
        var j: nat :| EndsAt(noise, i, j) && Excursion(Shaken(base, noise), i, j);
        ExcursionRestored(base, c, noise, i, j);
        NoiseRemovedFrom(base, c, noise, j + 1);
      }
    }
  }

  /** Every sample of a confirmed excursion is noisy but the one that confirms it. */
  lemma ExcursionIsNoisy(base: seq<Sample>, c: real, noise: seq<real>, i: nat, j: nat)
    requires |noise| == |base| && Steady(base, c) && Excursion(Shaken(base, noise), i, j)
    requires noise[i - 1] == 0.0 && noise[j] == 0.0
    ensures EndsAt(noise, i, j)
  {
    var s := Shaken(base, noise);
    ReturnIsFirstConfirmation(s, i, i + 1, j);
    forall m | i <= m < j
      ensures noise[m] != 0.0
    {
      SteadyLoss(base, c, i - 1, m);
      assert m > i ==> !Returns(s[i - 1], s[m]);
    }
  }

  lemma SmoothedIsConfirmed(base: seq<Sample>, c: real, noise: seq<real>, i: nat, j: nat)
    requires |noise| == |base| && Steady(base, c) && Smoothed(Shaken(base, noise), base, i, j)
    ensures j < |noise| && noise[j] == 0.0 && ConfirmedAt(base, noise, i)
    ensures forall k: nat :: i < k <= j ==> !Begins(noise, k)
  {
    var s := Shaken(base, noise);
    assert s[i - 1].w == base[i - 1].w + noise[i - 1] && s[j].w == base[j].w + noise[j];
    ExcursionIsNoisy(base, c, noise, i, j);
  }

  /** If the filter restores the loss, noise that begins at sample `k` was an excursion it smoothed from there. */
  lemma RestoredIsConfirmed(base: seq<Sample>, c: real, noise: seq<real>, k: nat)
    requires |noise| == |base| && Steady(base, c) && Filtered(Shaken(base, noise)) == base && Begins(noise, k)
    ensures ConfirmedAt(base, noise, k)
  {
    var s := Shaken(base, noise);
    FilterOnlyStraightensExcursions(s);
    assert Explained(s, base, k) && base[k] != s[k];
    var i: nat, j: nat :| Smoothed(s, base, i, j) && i <= k < j;
    SmoothedIsConfirmed(base, c, noise, i, j);
  }

  /** The filter restores a steady loss exactly when every stretch of noise is an excursion it confirms. */
  lemma NoiseRemovedExactlyWhen(base: seq<Sample>, c: real, noise: seq<real>)
    requires |noise| == |base| && Steady(base, c)
    ensures Filtered(Shaken(base, noise)) == base <==> Confirmed(base, noise)
  {
    var s := Shaken(base, noise);
    if Confirmed(base, noise) {
      NoiseRemovedFrom(base, c, noise, 1);
      PlannedExactlyWhenFiltered(s, base);
    }
    if Filtered(s) == base {
      FilterKeepsTimes(s);
      forall k: nat | Begins(noise, k)
        ensures ConfirmedAt(base, noise, k)
      {
        RestoredIsConfirmed(base, c, noise, k);
      }
    }
  }

  /** How many samples the noise touches. */
  function Touched(noise: seq<real>): nat {
    if noise == [] then 0 else Touched(noise[..|noise| - 1]) + if noise[|noise| - 1] != 0.0 then 1 else 0
  }

  lemma {:induction false} NoiseIsCounted(base: seq<Sample>, noise: seq<real>)
    requires |noise| == |base|
    ensures AlteredCount(Shaken(base, noise), base) == Touched(noise)
    decreases |base|
  {
    if base != [] {
      var n := |base| - 1;
      assert Shaken(base, noise)[..n] == Shaken(base[..n], noise[..n]);
      NoiseIsCounted(base[..n], noise[..n]);
    }
  }

  lemma ShakenIsSorted(base: seq<Sample>, c: real, noise: seq<real>)
    requires |noise| == |base| && Steady(base, c)
    ensures Sorted(Shaken(base, noise))
  {
    SteadyIsClean(base, c);
    var s := Shaken(base, noise);
    forall i, j | 0 <= i < j < |s| ensures Before(s[i], s[j]) { CleanIsTimed(base, i, j); }
  }

  lemma RateOfSteadyLoss(base: seq<Sample>, c: real)
    requires Steady(base, c)
    ensures base[0].t < base[|base| - 1].t
    ensures EndpointRate(base[0], base[|base| - 1]) == -(c * 3600.0)
  {
    var last := |base| - 1;
    Increasing(base, 0, last);
    SteadyLoss(base, c, 0, last);
    RateOfSteady(c, base[last].t - base[0].t);
  }

  lemma EstimateOfShaken(base: seq<Sample>, c: real, noise: seq<real>)
    requires |noise| == |base| && Steady(base, c) && Confirmed(base, noise)
    requires Positive(Shaken(base, noise))
    ensures base[0].t < base[|base| - 1].t
    ensures var e := AverageConsumption(AsRaw(Shaken(base, noise)));
      Exact(e, base[0], base[|base| - 1]) && e.filteredSamples == Touched(noise)
  {
    ShakenIsSorted(base, c, noise);
    NoiseRemovedExactlyWhen(base, c, noise);
    OrderedOfRaw(Shaken(base, noise));
    NoiseIsCounted(base, noise);
    SteadyIsClean(base, c);
    CleanTally(base, Touched(noise));
  }

  lemma ExactRate(base: seq<Sample>, c: real, e: Estimate)
    requires Steady(base, c) && base[0].t < base[|base| - 1].t && Exact(e, base[0], base[|base| - 1])
    ensures e.rate == Some(-(c * 3600.0))
  {
    RateOfSteadyLoss(base, c);
  }

  /** Confirmed excursions of the scale, of any sign and shape, do not change the estimate of a steady
      loss: the filter restores the undisturbed signal and the rate is exactly the true one. */
  lemma ExcursionsDoNotMatter(base: seq<Sample>, c: real, noise: seq<real>)
    requires |noise| == |base| && Steady(base, c) && Confirmed(base, noise)
    requires Positive(Shaken(base, noise))
    ensures base[0].t < base[|base| - 1].t
    ensures var e := AverageConsumption(AsRaw(Shaken(base, noise)));
      && Exact(e, base[0], base[|base| - 1]) && e.rate == Some(-(c * 3600.0))
      && e.filteredSamples == Touched(noise)
  {
    var e := AverageConsumption(AsRaw(Shaken(base, noise)));
    EstimateOfShaken(base, c, noise);
    ExactRate(base, c, e);
  }

  lemma RateOfSteady(c: real, d: real)
    requires d > 0.0
    ensures (-(c * d)) / (d / 3600.0) == -(c * 3600.0)
  {
    var h := d / 3600.0;
    assert -(c * d) == -(c * 3600.0) * h;
    assert (-(c * 3600.0) * h) / h == -(c * 3600.0);
  }

  // ----- which noise is confirmed -----

  /** Noise of the scale: absent, or clearly visible and below 30 g; absent at both ends. */
  predicate Noise(noise: seq<real>) {
    && |noise| >= 2 && noise[0] == 0.0 && noise[|noise| - 1] == 0.0
    && forall k :: 0 <= k < |noise| ==> noise[k] == 0.0 || 10.5 <= Abs(noise[k]) <= 29.5
  }

  /** It is over within five minutes, without a missing minute. */
  predicate EndsSoon(base: seq<Sample>, noise: seq<real>, k: nat, j: nat)
    requires |noise| == |base|
  {
    && 1 <= k && EndsAt(noise, k, j) && base[j].t - base[k].t <= TRANSIENT_WINDOW_SEC
    && forall m :: k <= m <= j ==> base[m].t - base[m - 1].t <= MAX_FILTER_STEP_SEC
  }

  ghost predicate ShortExcursions(base: seq<Sample>, noise: seq<real>)
    requires |noise| == |base|
  {
    forall k: nat :: Begins(noise, k) ==> exists j: nat :: EndsSoon(base, noise, k, j)
  }

  /** The lookahead passes over the noise and stops at the first quiet sample. */
  lemma {:induction false} ReturnFound(base: seq<Sample>, c: real, noise: seq<real>, k: nat, m: nat, j: nat)
    requires |noise| == |base| && Steady(base, c) && Noise(noise)
    requires EndsSoon(base, noise, k, j) && k < m <= j && noise[k - 1] == 0.0
    ensures ReturnFrom(Shaken(base, noise), k, m) == Some(j)
    decreases j - m
  {
    var s := Shaken(base, noise);
    SteadyLoss(base, c, k - 1, m);
    SteadyLoss(base, c, k, m);
    SteadyLoss(base, c, m, j);
    assert !Blocked(s, k, m);
    if m < j {
      ShortLoss(base, k, m);
      assert !Returns(s[k - 1], s[m]) && !TooFar(s[k - 1], s[m]);
      ReturnFound(base, c, noise, k, m + 1, j);
    }
  }

  lemma ShortLoss(base: seq<Sample>, k: nat, m: nat)
    requires 1 <= k <= m < |base| && base[k].t - base[k - 1].t <= 60.0 && base[m].t - base[k].t <= 300.0
    ensures AllowedLoss(base[m].t - base[k - 1].t) <= 2.5
  {
  }

  lemma ShortNoiseReturns(base: seq<Sample>, c: real, noise: seq<real>, k: nat, j: nat)
    requires |noise| == |base| && Steady(base, c) && Noise(noise) && Begins(noise, k) && EndsSoon(base, noise, k, j)
    ensures ConfirmedAt(base, noise, k)
  {
    SteadyLoss(base, c, k - 1, k);
    ReturnFound(base, c, noise, k, k + 1, j);
    assert EndsAt(noise, k, j) && Excursion(Shaken(base, noise), k, j);
  }

  /** Visible noise that ends soon is confirmed. */
  lemma ShortNoiseIsConfirmed(base: seq<Sample>, c: real, noise: seq<real>)
    requires |noise| == |base| && Steady(base, c) && Noise(noise) && ShortExcursions(base, noise)
    ensures Confirmed(base, noise)
  {
    forall k: nat | Begins(noise, k)
      ensures ConfirmedAt(base, noise, k)
    {
      var j: nat :| EndsSoon(base, noise, k, j);
      ShortNoiseReturns(base, c, noise, k, j);
    }
  }
}
