/** What one more sample means for the estimator, told from the samples and the baseline alone. */
module BaselineLaws {
  import opened Numbers
  import opened Options
  import opened Samples
  import opened TransientFilter
  import opened ConsumptionTypes
  import opened ConsumptionAverage

  // ----- a moderate rise -----

  /** The lookahead comes by sample `m`: no missing minute before it, and no more than 30 g over the baseline. */
  predicate PassesBy(s: seq<Sample>, m: nat, baseline: real) {
    1 <= m < |s| && 0.0 < s[m].t - s[m - 1].t <= 60.0 && s[m].w - baseline <= 30.0
  }

  /** Within 2 g of the baseline, or below it by no more than the plant may have lost since sample `i`. */
  predicate IsBack(s: seq<Sample>, i: nat, m: nat, baseline: real)
    requires i < |s| && m < |s|
  {
    -25.0 * (s[m].t - s[i].t) / 3600.0 - 2.0 <= s[m].w - baseline <= 2.0
  }

  /** Sample `k` is back, at most five minutes after sample `i`, and the lookahead gets there from sample `j` on. */
  predicate BackAt(s: seq<Sample>, i: nat, j: nat, k: nat, baseline: real) {
    && i < j <= k < |s| && s[k].t - s[i].t <= 300.0 && IsBack(s, i, k, baseline)
    && forall m :: j <= m <= k ==> PassesBy(s, m, baseline)
  }

  ghost predicate BackFrom(s: seq<Sample>, i: nat, j: nat, baseline: real) {
    exists k: nat :: BackAt(s, i, j, k, baseline)
  }

  /** The rise at sample `i` is temporary. */
  ghost predicate ComesBack(s: seq<Sample>, i: nat, baseline: real) {
    1 <= i < |s| && s[i].t - s[i - 1].t <= 60.0 && BackFrom(s, i, i + 1, baseline)
  }

  /** From sample `j` on the lookahead comes by all samples, less than five minutes, and none of them is back. */
  predicate OpenFrom(s: seq<Sample>, i: nat, j: nat, baseline: real) {
    i < |s| && forall m :: j <= m < |s| ==>
      PassesBy(s, m, baseline) && s[m].t - s[i].t < 300.0 && !IsBack(s, i, m, baseline)
  }

  /** The samples end before it shows whether the rise at sample `i` is temporary. */
  predicate StillOpen(s: seq<Sample>, i: nat, baseline: real) {
    1 <= i < |s| && s[i].t - s[i - 1].t <= 60.0 && OpenFrom(s, i, i + 1, baseline)
  }

  lemma LaterByStep(s: seq<Sample>, j: nat, k: nat, baseline: real)
    requires 1 <= j < k < |s| && forall m :: j <= m <= k ==> PassesBy(s, m, baseline)
    ensures s[j].t < s[k].t
  {
    forall m | j < m <= k ensures s[m - 1].t < s[m].t { assert PassesBy(s, m, baseline); }
    Increasing(s, j, k);
  }

  lemma {:induction false} TransientFrom(s: seq<Sample>, i: nat, j: nat, baseline: real)
    requires i < j <= |s|
    ensures RiseFrom(s, i, j, baseline) == Transient <==> BackFrom(s, i, j, baseline)
    decreases |s| - j
  {
    if j < |s| {
      TransientFrom(s, i, j + 1, baseline);
      if BackFrom(s, i, j + 1, baseline) && PassesBy(s, j, baseline) {
        var k: nat :| BackAt(s, i, j + 1, k, baseline);
        assert BackAt(s, i, j, k, baseline);
      }
      if BackFrom(s, i, j, baseline) {
        var k: nat :| BackAt(s, i, j, k, baseline);
        assert PassesBy(s, j, baseline);
        if j < k {
          LaterByStep(s, j, k, baseline);
          assert BackAt(s, i, j + 1, k, baseline);
        }
      }
      if IsBack(s, i, j, baseline) && PassesBy(s, j, baseline) && s[j].t - s[i].t <= 300.0 {
        assert BackAt(s, i, j, j, baseline);
      }
    }
  }

  lemma {:induction false} PendingFrom(s: seq<Sample>, i: nat, j: nat, baseline: real)
    requires i < j <= |s|
    ensures RiseFrom(s, i, j, baseline) == Pending <==> OpenFrom(s, i, j, baseline)
    decreases |s| - j
  {
    if j < |s| { PendingFrom(s, i, j + 1, baseline); }
  }

  // ----- the baseline -----

  /** The step to sample `i` takes some time, and no more than an hour. */
  predicate Steps(s: seq<Sample>, i: nat) {
    1 <= i < |s| && 0.0 < s[i].t - s[i - 1].t <= 3600.0
  }

  /** A rise of more than 10 and at most 30 g over the baseline. */
  predicate Moderate(s: seq<Sample>, i: nat, baseline: real) {
    Steps(s, i) && baseline + 10.0 < s[i].w <= baseline + 30.0
  }

  lemma RiseKindTold(s: seq<Sample>, i: nat, baseline: real)
    requires Steps(s, i) && s[i].w > baseline + 10.0
    ensures s[i].w > baseline + 30.0 ==> Judge(s, i, baseline) == PersistentUp
    ensures Moderate(s, i, baseline) ==>
      (Judge(s, i, baseline) == TransientUp <==> ComesBack(s, i, baseline))
      && (Judge(s, i, baseline) == Unconfirmed <==> StillOpen(s, i, baseline))
  {
    TransientFrom(s, i, i + 1, baseline);
    PendingFrom(s, i, i + 1, baseline);
  }

  ghost function Followed(s: seq<Sample>, i: nat, b: real): real
    requires 1 <= i < |s|
  {
    if !Steps(s, i) || s[i].w < b || s[i].w > b + 30.0 then s[i].w
    else if s[i].w <= b + 10.0 || ComesBack(s, i, b) || StillOpen(s, i, b) then b
    else s[i].w
  }

  /** The next baseline, told from the samples: a sample after a gap or without time is taken as it is, so is one
      below the baseline or more than 30 g above it; one at most 10 g above it leaves it alone; and in between it
      is left alone exactly when the rise is temporary or still open. */
  lemma NextBaseline(s: seq<Sample>, i: nat)
    requires 1 <= i < |s|
    ensures BaselineAt(s, i) == Followed(s, i, BaselineAt(s, i - 1))
  {
    var b := BaselineAt(s, i - 1);
    if Steps(s, i) && s[i].w > b + 10.0 { RiseKindTold(s, i, b); }
  }

  /** The loop waits at sample `i` exactly when a moderate rise is still open there. */
  lemma WaitsExactlyWhen(s: seq<Sample>, i: nat)
    requires 1 <= i < |s|
    ensures var b := BaselineAt(s, i - 1);
      Kind(s, i).Unconfirmed? <==> Moderate(s, i, b) && StillOpen(s, i, b)
  {
    var b := BaselineAt(s, i - 1);
    if Steps(s, i) && s[i].w > b + 10.0 { RiseKindTold(s, i, b); }
  }

  // ----- what is booked -----

  /** The interval listed for a step that counts. */
  predicate ListedAs(v: Interval, s: seq<Sample>, i: nat, reason: Reason, change: real)
    requires 1 <= i < |s|
  {
    v.startAt == s[i - 1].t && v.endAt == s[i].t && v.included && v.reason == reason && v.change == change
  }

  /** What step `i` is taken for and what it books, told from the samples. */
  lemma StepIsTakenFor(s: seq<Sample>, i: nat)
    requires Steps(s, i) && !(Moderate(s, i, BaselineAt(s, i - 1)) && StillOpen(s, i, BaselineAt(s, i - 1)))
    ensures var b, w := BaselineAt(s, i - 1), s[i].w; var reason, change := StepReason(Kind(s, i)), Booked(s, i);
      && (w > b + 30.0 ==> reason == Rise && change == 0.0)
      && (Moderate(s, i, b) ==> reason == (if ComesBack(s, i, b) then TransientRise else Rise) && change == 0.0)
      && (b <= w <= b + 10.0 ==> reason == Consumption && change == 0.0)
      && (b - 25.0 <= w < b ==> reason == Consumption && change == w - b)
      && (w <= b - 25.0000001 ==> reason == AbruptDrop && change == 0.0)
    ensures Kind(s, i).TransientUp? <==> Moderate(s, i, BaselineAt(s, i - 1)) && ComesBack(s, i, BaselineAt(s, i - 1))
  {
    var b := BaselineAt(s, i - 1);
    if s[i].w > b + 10.0 { RiseKindTold(s, i, b); }
  }

  /** The step joins the open window with its time and with what it books. */
  lemma StepIsListed(s: seq<Sample>, i: nat, t: Tally)
    requires Steps(s, i)
    ensures var c := Counted(s, i, t); var n := |t.window|;
      && |c.window| == n + 1 && c.window[..n] == t.window
      && ListedAs(c.window[n], s, i, StepReason(Kind(s, i)), Booked(s, i))
      && c.windowHours == t.windowHours + (s[i].t - s[i - 1].t) / 3600.0
      && c.windowChange == t.windowChange + c.window[n].change
      && c.filtered == t.filtered + (if Kind(s, i).TransientUp? then 1 else 0)
      && c.hours == t.hours && c.change == t.change && c.closed == t.closed
  {
  }

  // ----- the windows -----

  /** A window closes with the step that fills an hour, and with no earlier one. */
  lemma WindowClosesExactlyWhen(s: seq<Sample>, n: nat)
    requires Steps(s, n) && !Kind(s, n).Unconfirmed?
    ensures var h := Walk(s, n - 1).windowHours + (s[n].t - s[n - 1].t) / 3600.0;
      if h * 3600.0 >= 3600.0 - 0.000000001 then Walk(s, n).window == [] && Walk(s, n).windowHours == 0.0
      else Walk(s, n).windowHours == h && |Walk(s, n).window| == |Walk(s, n - 1).window| + 1
  {
  }

  /** A window that loses at most 25 g an hour counts as it is; one that loses more, beyond the tolerance, gives
      neither time nor loss, and its intervals are listed as excluded. */
  lemma WindowVerdict(t: Tally)
    requires 0.0 <= t.windowHours && t.windowChange <= 0.0
    ensures var f, limit := FinishWindow(t), 25.0 * t.windowHours;
      && f.window == [] && f.windowHours == f.windowChange == 0.0 && f.filtered == t.filtered
      && (-t.windowChange <= limit ==>
            f.hours == t.hours + t.windowHours && f.change == t.change + t.windowChange && f.closed == t.closed + t.window)
      && (-t.windowChange > limit + 0.00000001 * (1.0 + limit) ==>
            && f.hours == t.hours && f.change == t.change && |f.closed| == |t.closed| + |t.window|
            && f.closed[..|t.closed|] == t.closed
            && forall k :: 0 <= k < |t.window| ==>
                 var v := f.closed[|t.closed| + k];
                 v.startAt == t.window[k].startAt && v.endAt == t.window[k].endAt
                 && !v.included && v.reason == RateLimit && v.change == 0.0)
  {
  }

  /** A step of more than an hour closes the window and is listed as a gap, which counts nothing; one without
      time only closes the window. */
  lemma GapIsListed(s: seq<Sample>, i: nat, t: Tally)
    requires 1 <= i < |s| && !Steps(s, i)
    ensures var f, a := FinishWindow(t), Advance(s, i, t);
      if s[i].t - s[i - 1].t <= 0.0 then a == f
      else
        && |a.closed| == |f.closed| + 1 && a.closed[..|f.closed|] == f.closed && a.(closed := f.closed) == f
        && var v := a.closed[|f.closed|];
           v.startAt == s[i - 1].t && v.endAt == s[i].t && !v.included && v.reason == Gap && v.change == 0.0
  {
  }

  // ----- what is reported as filtered -----

  /** The temporary rises up to sample `n`. */
  ghost function TemporaryRises(s: seq<Sample>, n: nat): nat
    requires n < |s|
  {
    if n == 0 then 0
    else
      var b := BaselineAt(s, n - 1);
      TemporaryRises(s, n - 1) + if Moderate(s, n, b) && ComesBack(s, n, b) then 1 else 0
  }

  lemma FinishFiltersNothing(t: Tally)
    ensures FinishWindow(t).filtered == t.filtered
  {
  }

  lemma StepFilters(s: seq<Sample>, n: nat, t: Tally)
    requires 1 <= n < |s|
    ensures Advance(s, n, t).filtered == t.filtered + if Kind(s, n).TransientUp? then 1 else 0
  {
    FinishFiltersNothing(t);
    FinishFiltersNothing(Counted(s, n, t));
  }

  lemma TemporaryExactlyWhen(s: seq<Sample>, n: nat)
    requires 1 <= n < |s|
    ensures var b := BaselineAt(s, n - 1); Kind(s, n).TransientUp? <==> Moderate(s, n, b) && ComesBack(s, n, b)
  {
    var b := BaselineAt(s, n - 1);
    if Steps(s, n) && s[n].w > b + 10.0 { RiseKindTold(s, n, b); }
  }

  lemma {:induction false} WalkCountsRises(s: seq<Sample>, n: nat)
    requires n < |s|
    ensures Walk(s, n).filtered == TemporaryRises(s, n)
  {
    if n > 0 {
      WalkCountsRises(s, n - 1);
      StepFilters(s, n, Walk(s, n - 1));
      TemporaryExactlyWhen(s, n);
    }
  }

  lemma LastCountsRises(s: seq<Sample>)
    requires s != []
    ensures LastTally(s).filtered == TemporaryRises(s, FirstUnconfirmed(s, 1) - 1)
  {
    var n := FirstUnconfirmed(s, 1);
    var f := FinishWindow(Walk(s, n - 1));
    WalkCountsRises(s, n - 1);
    FinishFiltersNothing(Walk(s, n - 1));
    if n < |s| {
      FinishFiltersNothing(f.(closed := f.closed + [Labelled(s[n - 1].t, s[|s| - 1].t, false, PendingRise, 0.0)]));
    }
  }

  /** Filtered are the samples that the spike filter has moved and the temporary rises after it, up to the first
      rise that is still open. */
  lemma FilteredAreCounted(ordered: seq<Sample>, filtered: seq<Sample>)
    requires |ordered| >= 2 && filtered == Filtered(ordered)
    ensures EstimateOf(ordered).filteredSamples ==
      AlteredCount(ordered, filtered) + TemporaryRises(filtered, FirstUnconfirmed(filtered, 1) - 1)
  {
    LastCountsRises(filtered);
  }
}
