/** What the audit trail of the estimator guarantees, for every set of readings. */
module ConsumptionAudit {
  import opened Options
  import opened Samples
  import opened TransientFilter
  import opened ConsumptionTypes
  import opened ConsumptionAverage

  /** An interval never books a gain, and an excluded one books nothing. */
  predicate Proper(v: Interval) {
    v.change <= 0.0 && (!v.included ==> v.change == 0.0)
  }

  predicate AllProper(vs: seq<Interval>) {
    forall k :: 0 <= k < |vs| ==> Proper(vs[k])
  }

  predicate Settled(vs: seq<Interval>) {
    forall k :: 0 <= k < |vs| ==> vs[k].reason != PendingRise
  }

  /** The loss over `hours` stays under 25 g/h, up to the slack of `isclose` in each of at most `windows` windows. */
  predicate RateBound(change: real, hours: real, windows: nat) {
    -change * (1.0 - TOLERANCE) <= MAX_RATE_G_PER_HOUR * hours + TOLERANCE * windows as real
  }

  /** The accumulators are the totals of the intervals listed so far. */
  predicate Accounted(t: Tally) {
    && t.hours * 3600.0 == Total(CountedSeconds, t.closed) && t.change == Total(Change, t.closed)
    && t.windowHours * 3600.0 == Total(CountedSeconds, t.window) && t.windowChange == Total(Change, t.window)
    && 0.0 <= t.hours && 0.0 <= t.windowHours && t.change <= 0.0 && t.windowChange <= 0.0
    && (t.hours == 0.0 ==> t.change == 0.0) && (t.windowHours == 0.0 ==> t.windowChange == 0.0)
    && AllProper(t.closed) && AllProper(t.window) && Settled(t.closed) && Settled(t.window)
    && RateBound(t.change, t.hours, |t.closed|)
  }

  lemma {:induction false} RejectedCountsNothing(window: seq<Interval>)
    ensures Total(CountedSeconds, Rejected(window)) == 0.0 && Total(Change, Rejected(window)) == 0.0
    ensures AllProper(Rejected(window)) && Settled(Rejected(window))
  {
    if window != [] {
      var n := |window| - 1;
      RejectedCountsNothing(window[..n]);
      assert Rejected(window)[..n] == Rejected(window[..n]);
    }
  }

  lemma WithinLimitSlack(windowHours: real, windowChange: real)
    requires 0.0 <= windowHours && windowChange <= 0.0 && WithinLimit(windowHours, windowChange)
    ensures RateBound(windowChange, windowHours, 1)
  {
  }

  lemma KeptWindow(t: Tally, a: real, b: real)
    requires Accounted(t) && Chain(t.closed + t.window, a, b) && WithinLimit(t.windowHours, t.windowChange)
    ensures Accounted(FinishWindow(t))
  {
    TotalAppend(CountedSeconds, t.closed, t.window);
    TotalAppend(Change, t.closed, t.window);
    if t.window != [] {
      WithinLimitSlack(t.windowHours, t.windowChange);
    }
  }

  lemma DroppedWindow(t: Tally, a: real, b: real)
    requires Accounted(t) && Chain(t.closed + t.window, a, b) && !WithinLimit(t.windowHours, t.windowChange)
    ensures Accounted(FinishWindow(t)) && Chain(FinishWindow(t).closed, a, b)
  {
    var r := Rejected(t.window);
    RejectedCountsNothing(t.window);
    TotalAppend(CountedSeconds, t.closed, r);
    TotalAppend(Change, t.closed, r);
    ChainSameBounds(t.closed + t.window, t.closed + r, a, b);
  }

  /** Closing a window keeps the accounts and the tiling, whether the window is kept or rejected. */
  lemma FinishKeepsAccounts(t: Tally, a: real, b: real)
    requires Accounted(t) && Chain(t.closed + t.window, a, b)
    ensures Accounted(FinishWindow(t)) && FinishWindow(t).window == []
    ensures Chain(FinishWindow(t).closed, a, b)
    ensures FinishWindow(t).closed + FinishWindow(t).window == FinishWindow(t).closed
  {
    if WithinLimit(t.windowHours, t.windowChange) {
      KeptWindow(t, a, b);
    } else {
      DroppedWindow(t, a, b);
    }
  }

  /** An interval that counts nothing joins the list. */
  lemma ExcludedKeepsAccounts(t: Tally, v: Interval, a: real)
    requires Accounted(t) && t.window == [] && Chain(t.closed, a, v.startAt) && v.startAt < v.endAt
    requires !v.included && v.change == 0.0
    ensures var u := t.(closed := t.closed + [v]);
      && Chain(u.closed + u.window, a, v.endAt) && (v.reason != PendingRise ==> Accounted(u))
      && Total(CountedSeconds, u.closed) == t.hours * 3600.0 && Total(Change, u.closed) == t.change
  {
    TotalAppend(CountedSeconds, t.closed, [v]);
    TotalAppend(Change, t.closed, [v]);
    TotalOne(CountedSeconds, v);
    TotalOne(Change, v);
    ChainSnoc(t.closed, a, v);
    assert t.closed + [v] + [] == t.closed + [v];
  }

  lemma CountedKeepsAccounts(s: seq<Sample>, i: nat, t: Tally, a: real)
    requires 1 <= i < |s| && Accounted(t) && Chain(t.closed + t.window, a, s[i - 1].t) && s[i - 1].t < s[i].t
    ensures Accounted(Counted(s, i, t)) && Chain(Counted(s, i, t).closed + Counted(s, i, t).window, a, s[i].t)
  {
    var v := Labelled(s[i - 1].t, s[i].t, true, StepReason(Kind(s, i)), Booked(s, i));
    assert Booked(s, i) <= 0.0;
    TotalAppend(CountedSeconds, t.window, [v]);
    TotalAppend(Change, t.window, [v]);
    TotalOne(CountedSeconds, v);
    TotalOne(Change, v);
    ChainSnoc(t.closed + t.window, a, v);
    assert t.closed + (t.window + [v]) == t.closed + t.window + [v];
  }

  /** What holds of the accumulators once sample `n` has been taken in. */
  ghost predicate WalkInvariant(s: seq<Sample>, n: nat, t: Tally)
    requires n < |s|
  {
    Accounted(t) && Chain(t.closed + t.window, s[0].t, s[n].t) && !WindowFull(t.windowHours)
  }

  lemma StepKeepsAccounts(s: seq<Sample>, n: nat, t: Tally)
    requires 1 <= n < |s| && s[n - 1].t <= s[n].t && !Kind(s, n).Unconfirmed?
    requires WalkInvariant(s, n - 1, t)
    ensures WalkInvariant(s, n, Advance(s, n, t))
  {
    var v := Kind(s, n);
    if v.NoTime? {
      FinishKeepsAccounts(t, s[0].t, s[n - 1].t);
    } else if v.DataGap? {
      FinishKeepsAccounts(t, s[0].t, s[n - 1].t);
      ExcludedKeepsAccounts(FinishWindow(t), Labelled(s[n - 1].t, s[n].t, false, Gap, 0.0), s[0].t);
    } else {
      CountedKeepsAccounts(s, n, t, s[0].t);
      if WindowFull(Counted(s, n, t).windowHours) {
        FinishKeepsAccounts(Counted(s, n, t), s[0].t, s[n].t);
      }
    }
  }

  /** In every state of the loop the intervals tile the time walked so far, the accumulators are
      their totals, and the open window is shorter than an hour. */
  lemma {:induction false} WalkKeepsAccounts(s: seq<Sample>, n: nat)
    requires Timed(s) && n < |s|
    requires forall k :: 1 <= k <= n ==> !Kind(s, k).Unconfirmed?
    ensures WalkInvariant(s, n, Walk(s, n))
  {
    if n > 0 {
      WalkKeepsAccounts(s, n - 1);
      StepKeepsAccounts(s, n, Walk(s, n - 1));
    } else {
      assert EMPTY.closed + EMPTY.window == [];
    }
  }

  /** A window that closes is shorter than two hours. */
  lemma WindowIsShort(s: seq<Sample>, n: nat)
    requires Timed(s) && n + 1 < |s|
    requires forall k :: 1 <= k <= n + 1 ==> !Kind(s, k).Unconfirmed?
    ensures Walk(s, n).windowHours < 1.0
    ensures !Kind(s, n + 1).DataGap? ==> Counted(s, n + 1, Walk(s, n)).windowHours < 2.0
  {
    WalkKeepsAccounts(s, n);
  }

  // ----- the lookahead -----

  lemma {:induction false} PendingIsRecent(s: seq<Sample>, i: nat, j: nat, baseline: real)
    requires i < j <= |s| && s[j - 1].t - s[i].t < TRANSIENT_WINDOW_SEC && RiseFrom(s, i, j, baseline) == Pending
    ensures s[|s| - 1].t - s[i].t < TRANSIENT_WINDOW_SEC
    decreases |s| - j
  {
    if j < |s| { PendingIsRecent(s, i, j + 1, baseline); }
  }

  /** A verdict once given is not changed by samples that arrive later. */
  lemma {:induction false} VerdictIsFinal(s: seq<Sample>, more: seq<Sample>, i: nat, j: nat, baseline: real)
    requires i < j <= |s| && RiseFrom(s, i, j, baseline) != Pending
    ensures RiseFrom(s + more, i, j, baseline) == RiseFrom(s, i, j, baseline)
    decreases |s| - j
  {
    assert j < |s| && (s + more)[j] == s[j] && (s + more)[j - 1] == s[j - 1] && (s + more)[i] == s[i];
    if RiseFrom(s, i, j, baseline) == RiseFrom(s, i, j + 1, baseline) && RiseFrom(s, i, j + 1, baseline) != Pending {
      VerdictIsFinal(s, more, i, j + 1, baseline);
    }
  }

  lemma JudgementIsFinal(s: seq<Sample>, more: seq<Sample>, i: nat, baseline: real)
    requires 1 <= i < |s| && !Judge(s, i, baseline).Unconfirmed?
    ensures Judge(s + more, i, baseline) == Judge(s, i, baseline)
  {
    assert (s + more)[i] == s[i] && (s + more)[i - 1] == s[i - 1];
    if BaselineRiseKind(s, i, baseline) != Pending && RiseFrom(s, i, i + 1, baseline) != Pending {
      VerdictIsFinal(s, more, i, i + 1, baseline);
    }
  }

  lemma {:induction false} BaselineIsFinal(s: seq<Sample>, more: seq<Sample>, n: nat)
    requires n < |s| && forall k :: 1 <= k <= n ==> !Kind(s, k).Unconfirmed?
    ensures BaselineAt(s + more, n) == BaselineAt(s, n)
    ensures n > 0 ==> Kind(s + more, n) == Kind(s, n)
  {
    var all := s + more;
    assert all[n] == s[n];
    if n > 0 {
      BaselineIsFinal(s, more, n - 1);
      assert !Kind(s, n).Unconfirmed?;
      JudgementIsFinal(s, more, n, BaselineAt(s, n - 1));
    }
  }

  /** So the walk over settled steps is not disturbed by later samples either. */
  lemma {:induction false} WalkIsFinal(s: seq<Sample>, more: seq<Sample>, n: nat)
    requires n < |s| && forall k :: 1 <= k <= n ==> !Kind(s, k).Unconfirmed?
    ensures Walk(s + more, n) == Walk(s, n)
  {
    var all := s + more;
    if n > 0 {
      WalkIsFinal(s, more, n - 1);
      BaselineIsFinal(s, more, n - 1);
      BaselineIsFinal(s, more, n);
      assert all[n] == s[n] && all[n - 1] == s[n - 1];
      SameStep(s, all, n, Walk(s, n - 1));
    }
  }

  lemma SameStep(s: seq<Sample>, all: seq<Sample>, n: nat, t: Tally)
    requires 1 <= n < |s| <= |all| && all[n] == s[n] && all[n - 1] == s[n - 1]
    requires BaselineAt(all, n - 1) == BaselineAt(s, n - 1) && Kind(all, n) == Kind(s, n)
    ensures Advance(all, n, t) == Advance(s, n, t)
  {
    assert Booked(all, n) == Booked(s, n);
    assert Counted(all, n, t) == Counted(s, n, t);
  }

  // ----- the result -----

  /** Everything the result promises about its own figures. */
  ghost predicate Audited(e: Estimate, a: real, b: real) {
    && Chain(e.intervals, a, b) && AllProper(e.intervals)
    && e.countedSeconds == Total(CountedSeconds, e.intervals) >= 0.0
    && e.change == Total(Change, e.intervals) <= 0.0
    && (e.rate.None? <==> e.countedSeconds == 0.0)
    && (e.countedSeconds == 0.0 ==> e.change == 0.0)
    && (e.rate.Some? ==> e.rate.value <= 0.0 && e.rate.value * (e.countedSeconds / 3600.0) == e.change)
    && RateBound(e.change, e.countedSeconds / 3600.0, |e.intervals|)
  }

  /** At most one interval waits for confirmation: the last one, excluded, less than six minutes old. */
  ghost predicate OnlyLastPending(vs: seq<Interval>) {
    forall k :: 0 <= k < |vs| && vs[k].reason == PendingRise ==>
      k == |vs| - 1 && !vs[k].included && vs[k].endAt - vs[k].startAt < 360.0
  }

  lemma NonPositiveQuotient(x: real, y: real)
    requires x <= 0.0 < y
    ensures x / y <= 0.0 && x / y * y == x
  {
    Sign(-(x / y), y);
  }

  /** A finished tally whose intervals tile `a..b` makes an audited result. */
  lemma SummaryIsAudited(t: Tally, altered: nat, a: real, b: real)
    requires Chain(t.closed, a, b) && AllProper(t.closed)
    requires t.hours * 3600.0 == Total(CountedSeconds, t.closed) && t.change == Total(Change, t.closed)
    requires t.hours >= 0.0 && t.change <= 0.0 && (t.hours == 0.0 ==> t.change == 0.0)
    requires RateBound(t.change, t.hours, |t.closed|)
    ensures Audited(Summary(t, altered), a, b)
  {
    if t.hours > 0.0 {
      NonPositiveQuotient(t.change, t.hours);
    }
  }

  lemma EmptyWindow(t: Tally)
    requires t.window == [] && t.windowHours == 0.0 && t.windowChange == 0.0
    ensures FinishWindow(t) == t
  {
    assert t.closed + [] == t.closed;
  }

  /** The tail of the loop when a rise still waits for confirmation. */
  lemma PendingTailIsAudited(s: seq<Sample>, n: nat, f: Tally, altered: nat)
    requires Timed(s) && 1 <= n < |s| && Kind(s, n).Unconfirmed?
    requires Accounted(f) && f.window == [] && Chain(f.closed, s[0].t, s[n - 1].t)
    requires f.windowHours == 0.0 && f.windowChange == 0.0
    ensures var u := f.(closed := f.closed + [Labelled(s[n - 1].t, s[|s| - 1].t, false, PendingRise, 0.0)]);
      && FinishWindow(u) == u && OnlyLastPending(u.closed)
      && Audited(Summary(u, altered), s[0].t, s[|s| - 1].t)
  {
    PendingIsRecent(s, n, n + 1, BaselineAt(s, n - 1));
    var v := Labelled(s[n - 1].t, s[|s| - 1].t, false, PendingRise, 0.0);
    assert v.endAt - v.startAt < 360.0;
    ExcludedKeepsAccounts(f, v, s[0].t);
    var u := f.(closed := f.closed + [v]);
    EmptyWindow(u);
    assert u.closed + u.window == u.closed;
    SummaryIsAudited(u, altered, s[0].t, s[|s| - 1].t);
  }

  /** For filtered samples in time order: the intervals tile the span from the first to the last
      sample, and time, grams and rate are exactly what the intervals say. */
  lemma LastTallyIsAudited(s: seq<Sample>, altered: nat)
    requires Timed(s) && s != []
    ensures Audited(Summary(LastTally(s), altered), s[0].t, s[|s| - 1].t)
    ensures OnlyLastPending(LastTally(s).closed)
  {
    var n := FirstUnconfirmed(s, 1);
    WalkKeepsAccounts(s, n - 1);
    var t := Walk(s, n - 1);
    FinishKeepsAccounts(t, s[0].t, s[n - 1].t);
    var f := FinishWindow(t);
    if n < |s| {
      PendingTailIsAudited(s, n, f, altered);
    } else {
      SummaryIsAudited(f, altered, s[0].t, s[|s| - 1].t);
    }
  }

  lemma SortedIsTimed(s: seq<Sample>)
    requires Sorted(s)
    ensures Timed(s)
  {
    forall i, j | 0 <= i < j < |s| ensures s[i].t <= s[j].t { assert Before(s[i], s[j]); }
  }

  /** The estimator's contract with its evaluator, for any readings with two usable samples. */
  lemma EstimateIsAudited(readings: seq<RawSample>)
    ensures var s := Ordered(readings); var e := AverageConsumption(readings);
      if |s| < 2 then e == Estimate(0.0, 0.0, [], None, 0)
      else Audited(e, s[0].t, s[|s| - 1].t) && OnlyLastPending(e.intervals)
  {
    var s := Ordered(readings);
    if |s| >= 2 {
      SortedIsTimed(s);
      FilterKeepsTimes(s);
      LastTallyIsAudited(Filtered(s), AlteredCount(s, Filtered(s)));
    }
  }
}
