/** What later readings cannot change any more. A reading may still alter the filtering of the last five
    minutes and the verdicts of the five minutes before them, and nothing older. */
module Finality {
  import opened Options
  import opened Samples
  import opened TransientFilter
  import opened ConsumptionTypes
  import opened ConsumptionAverage
  import opened ConsumptionAudit

  /** At least `seconds` of samples follow sample `k`. */
  predicate OlderBy(s: seq<Sample>, k: nat, seconds: real)
    requires k < |s|
  {
    s[|s| - 1].t - s[k].t >= seconds
  }

  // ----- the filter -----

  /** The search for a return, begun at sample `i`, runs off the end of the samples without a verdict. */
  predicate RunsOff(s: seq<Sample>, i: nat, m: nat)
    requires 1 <= i < m <= |s|
    decreases |s| - m
  {
    m == |s| || (!Blocked(s, i, m) && !Returns(s[i - 1], s[m]) && !TooFar(s[i - 1], s[m]) && RunsOff(s, i, m + 1))
  }

  /** A departure that a later reading may still confirm. */
  predicate Open(s: seq<Sample>, i: nat)
    requires 1 <= i < |s|
  {
    Departs(s[i - 1], s[i]) && RunsOff(s, i, i + 1) && !OlderBy(s, i, TRANSIENT_WINDOW_SEC)
  }

  /** Where the scan goes on after sample `i`. */
  function NextStop(s: seq<Sample>, i: nat): (n: nat)
    requires 1 <= i < |s|
    ensures i < n <= |s|
  {
    if Departs(s[i - 1], s[i]) && ReturnFrom(s, i, i + 1).Some? then ReturnFrom(s, i, i + 1).value + 1 else i + 1
  }

  /** The first open departure at which the scan stops, from sample `i` on and up to sample `k`. */
  function FirstOpen(s: seq<Sample>, i: nat, k: nat): (p: Option<nat>)
    requires 1 <= i <= |s|
    ensures p.Some? ==> i <= p.value <= k && p.value < |s| && Open(s, p.value)
    decreases |s| - i
  {
    if i > k || i == |s| then None
    else if Open(s, i) then Some(i)
    else FirstOpen(s, NextStop(s, i), k)
  }

  /** Any other search has its verdict, or is given up on the next sample, whatever that is. */
  lemma {:induction false} SearchIsFinal(s: seq<Sample>, more: seq<Sample>, i: nat, m: nat)
    requires 1 <= i < m <= |s| && (RunsOff(s, i, m) ==> OlderBy(s, i, TRANSIENT_WINDOW_SEC))
    ensures ReturnFrom(s + more, i, m) == ReturnFrom(s, i, m)
    decreases |s| - m
  {
    var all := s + more;
    assert all[i] == s[i] && all[i - 1] == s[i - 1] && all[m - 1] == s[m - 1];
    if m < |s| {
      assert all[m] == s[m];
      if !Blocked(s, i, m) && !Returns(s[i - 1], s[m]) && !TooFar(s[i - 1], s[m]) {
        SearchIsFinal(s, more, i, m + 1);
      }
    } else if more != [] {
      assert Blocked(all, i, m);
    }
  }

  lemma StopIsFinal(s: seq<Sample>, more: seq<Sample>, i: nat)
    requires 1 <= i < |s| && !Open(s, i)
    ensures NextStop(s + more, i) == NextStop(s, i)
    ensures Departs(s[i - 1], s[i]) ==> ReturnFrom(s + more, i, i + 1) == ReturnFrom(s, i, i + 1)
  {
    assert (s + more)[i - 1] == s[i - 1] && (s + more)[i] == s[i];
    if Departs(s[i - 1], s[i]) { SearchIsFinal(s, more, i, i + 1); }
  }

  /** An excursion is smoothed in the same way, whatever follows it. */
  lemma ExcursionIsFinal(s: seq<Sample>, more: seq<Sample>, g: seq<Sample>, h: seq<Sample>, i: nat, j: nat)
    requires |g| == |s| && |h| == |s + more| && Smoothed(s, g, i, j) && Smoothed(s + more, h, i, j)
    ensures forall k :: i <= k <= j ==> g[k] == h[k]
  {
    var all := s + more;
    assert forall k :: i - 1 <= k <= j ==> all[k] == s[k];
  }

  lemma {:induction false} PlanIsFinal(s: seq<Sample>, more: seq<Sample>, g: seq<Sample>, h: seq<Sample>, i: nat, k: nat)
    requires |g| == |s| && |h| == |s + more| && 1 <= i <= |s| && i - 1 <= k < |s|
    requires Planned(s, g, i) && Planned(s + more, h, i) && FirstOpen(s, i, k).None?
    ensures g[k] == h[k]
    decreases |s| - i
  {
    assert (s + more)[i - 1] == s[i - 1];
    if i <= k {
      StopIsFinal(s, more, i);
      assert (s + more)[i] == s[i];
      if Departs(s[i - 1], s[i]) && ReturnFrom(s, i, i + 1).Some? {
        var j := ReturnFrom(s, i, i + 1).value;
        ExcursionIsFinal(s, more, g, h, i, j);
        if k > j { PlanIsFinal(s, more, g, h, j + 1, k); }
      } else if i < |s| - 1 {
        PlanIsFinal(s, more, g, h, i + 1, k);
      }
    }
  }

  /** Unless the scan stops at an open departure up to sample `k`, that sample is filtered the same,
      whatever is appended. */
  lemma SampleIsFinal(s: seq<Sample>, more: seq<Sample>, k: nat)
    requires k < |s| && FirstOpen(s, 1, k).None?
    ensures Filtered(s + more)[k] == Filtered(s)[k]
  {
    PlannedExactlyWhenFiltered(s, Filtered(s));
    PlannedExactlyWhenFiltered(s + more, Filtered(s + more));
    PlanIsFinal(s, more, Filtered(s), Filtered(s + more), 1, k);
  }

  // ----- a reading that confirms -----

  /** A reading that is later than all samples, and positive if they are. */
  predicate Later(s: seq<Sample>, x: Sample)
    requires s != []
  {
    s[|s| - 1].t < x.t && (Positive(s) ==> x.w > 0.0)
  }

  /** The next sample, in time and back on the trend from before sample `p`. */
  predicate Confirming(s: seq<Sample>, p: nat, x: Sample)
    requires 1 <= p < |s|
  {
    && 0.0 < x.t - s[|s| - 1].t <= MAX_FILTER_STEP_SEC && x.t - s[p].t <= TRANSIENT_WINDOW_SEC
    && Returns(s[p - 1], x)
  }

  lemma {:induction false} OpenReturns(s: seq<Sample>, x: Sample, p: nat, m: nat)
    requires 1 <= p < m <= |s| && RunsOff(s, p, m) && Confirming(s, p, x)
    ensures ReturnFrom(s + [x], p, m) == Some(|s|)
    decreases |s| - m
  {
    var all := s + [x];
    assert all[p] == s[p] && all[p - 1] == s[p - 1] && all[m - 1] == s[m - 1];
    if m < |s| {
      assert all[m] == s[m];
      OpenReturns(s, x, p, m + 1);
    } else {
      assert all[m] == x && !Blocked(all, p, m);
    }
  }

  /** Such a reading moves every sample of the open departure onto the line to itself. */
  lemma {:induction false} OpenIsConfirmed(s: seq<Sample>, x: Sample, h: seq<Sample>, i: nat, k: nat)
    requires |h| == |s| + 1 && 1 <= i <= |s| && k < |s| && FirstOpen(s, i, k).Some?
    requires Planned(s + [x], h, i) && Confirming(s, FirstOpen(s, i, k).value, x)
    ensures var p := FirstOpen(s, i, k).value;
      s[p - 1].t < s[k].t < x.t && h[k] == Sample(s[k].t, Line(s[p - 1], x, s[k].t))
    decreases |s| - i
  {
    var all := s + [x];
    assert all[i - 1] == s[i - 1] && all[i] == s[i] && all[k] == s[k] && all[|s|] == x;
    if Open(s, i) {
      OpenReturns(s, x, i, i + 1);
      ExcursionIsShort(all, i, |s|);
    } else {
      StopIsFinal(s, [x], i);
      OpenIsConfirmed(s, x, h, NextStop(s, i), k);
    }
  }

  lemma LinesDiffer(a: Sample, t: real, u: real)
    requires a.t < t < u
    ensures Line(a, Sample(u, a.w), t) == a.w != Line(a, Sample(u, a.w + 1.0), t)
  {
    var f := (t - a.t) / (u - a.t);
    assert f * (u - a.t) == t - a.t;
    assert f != 0.0;
  }

  /** The time of a reading that still confirms departure `p`. */
  function InTimeFor(s: seq<Sample>, p: nat): (u: real)
    requires 1 <= p < |s| && !OlderBy(s, p, TRANSIENT_WINDOW_SEC)
    ensures 0.0 < u - s[|s| - 1].t <= MAX_FILTER_STEP_SEC && u - s[p].t <= TRANSIENT_WINDOW_SEC
  {
    var rest := TRANSIENT_WINDOW_SEC - (s[|s| - 1].t - s[p].t);
    s[|s| - 1].t + if rest < MAX_FILTER_STEP_SEC then rest else MAX_FILTER_STEP_SEC
  }

  /** The weight of sample `k` once the reading `x` has confirmed departure `p`. */
  lemma ConfirmedWeight(s: seq<Sample>, k: nat, x: Sample)
    requires k < |s| && FirstOpen(s, 1, k).Some? && Confirming(s, FirstOpen(s, 1, k).value, x)
    ensures var p := FirstOpen(s, 1, k).value;
      s[p - 1].t < s[k].t < x.t && Filtered(s + [x])[k].w == Line(s[p - 1], x, s[k].t)
  {
    PlannedExactlyWhenFiltered(s + [x], Filtered(s + [x]));
    OpenIsConfirmed(s, x, Filtered(s + [x]), 1, k);
  }

  lemma SampleCanChange(s: seq<Sample>, k: nat) returns (x: Sample)
    requires Timed(s) && k < |s| && FirstOpen(s, 1, k).Some?
    ensures Later(s, x) && Filtered(s + [x])[k] != Filtered(s)[k]
  {
    var p := FirstOpen(s, 1, k).value;
    var u, a := InTimeFor(s, p), s[p - 1];
    var x1, x2 := Sample(u, a.w), Sample(u, a.w + 1.0);
    assert a.t <= s[|s| - 1].t;
    ConfirmedWeight(s, k, x1);
    ConfirmedWeight(s, k, x2);
    LinesDiffer(a, s[k].t, u);
    x := if Filtered(s + [x1])[k] != Filtered(s)[k] then x1 else x2;
  }

  /** Exactly when a filtered sample is final: no open departure, at which the scan stops, stands before it or
      at it. If one does, already a single later reading can change the sample. */
  lemma FinalExactlyWhen(s: seq<Sample>, k: nat)
    requires Timed(s) && k < |s|
    ensures FirstOpen(s, 1, k).None? ==> forall more :: Filtered(s + more)[k] == Filtered(s)[k]
    ensures FirstOpen(s, 1, k).Some? ==> exists x :: Later(s, x) && Filtered(s + [x])[k] != Filtered(s)[k]
  {
    if FirstOpen(s, 1, k).None? {
      forall more
        ensures Filtered(s + more)[k] == Filtered(s)[k]
      {
        SampleIsFinal(s, more, k);
      }
    } else {
      var x := SampleCanChange(s, k);
    }
  }

  lemma {:induction false} OldIsClosed(s: seq<Sample>, i: nat, k: nat)
    requires Timed(s) && 1 <= i <= |s| && k < |s| && OlderBy(s, k, TRANSIENT_WINDOW_SEC)
    ensures FirstOpen(s, i, k).None?
    decreases |s| - i
  {
    if i <= k {
      assert s[i].t <= s[k].t;
      OldIsClosed(s, NextStop(s, i), k);
    }
  }

  /** In particular a filtered sample is final once five minutes of samples follow it. */
  lemma FilterIsFinal(s: seq<Sample>, more: seq<Sample>, k: nat)
    requires Timed(s) && k < |s| && OlderBy(s, k, TRANSIENT_WINDOW_SEC)
    ensures Filtered(s + more)[k] == Filtered(s)[k]
  {
    OldIsClosed(s, 1, k);
    SampleIsFinal(s, more, k);
  }

  // ----- the walk over the filtered samples -----

  /** Two filtered lists with the same times that agree where the filter is final. */
  ghost predicate Agree(f: seq<Sample>, h: seq<Sample>) {
    && Timed(f) && |f| <= |h|
    && (forall k: nat :: k < |f| ==> h[k].t == f[k].t)
    && (forall k: nat :: k < |f| && OlderBy(f, k, TRANSIENT_WINDOW_SEC) ==> h[k] == f[k])
  }

  lemma FilteredAgree(s: seq<Sample>, more: seq<Sample>)
    requires Timed(s)
    ensures Agree(Filtered(s), Filtered(s + more))
  {
    FilterKeepsTimes(s);
    FilterKeepsTimes(s + more);
    forall k: nat | k < |s| && OlderBy(Filtered(s), k, TRANSIENT_WINDOW_SEC)
      ensures Filtered(s + more)[k] == Filtered(s)[k]
    {
      FilterIsFinal(s, more, k);
    }
  }

  lemma {:induction false} RiseIsFinal(f: seq<Sample>, h: seq<Sample>, i: nat, j: nat, baseline: real)
    requires Agree(f, h) && i < j < |f| && OlderBy(f, i, 600.0) && f[j - 1].t - f[i].t < TRANSIENT_WINDOW_SEC
    ensures RiseFrom(h, i, j, baseline) == RiseFrom(f, i, j, baseline) != Pending
    decreases |f| - j
  {
    assert h[i].t == f[i].t && h[j].t == f[j].t && h[j - 1].t == f[j - 1].t;
    if f[j].t - f[i].t <= TRANSIENT_WINDOW_SEC {
      assert OlderBy(f, j, TRANSIENT_WINDOW_SEC);
      if f[j].t - f[i].t < TRANSIENT_WINDOW_SEC {
        RiseIsFinal(f, h, i, j + 1, baseline);
      }
    }
  }

  lemma JudgementAgrees(f: seq<Sample>, h: seq<Sample>, i: nat, baseline: real)
    requires Agree(f, h) && 1 <= i < |f| && OlderBy(f, i, 600.0)
    ensures Judge(h, i, baseline) == Judge(f, i, baseline) && !Judge(f, i, baseline).Unconfirmed?
  {
    assert f[i - 1].t <= f[i].t;
    assert OlderBy(f, i - 1, TRANSIENT_WINDOW_SEC) && OlderBy(f, i, TRANSIENT_WINDOW_SEC);
    RiseIsFinal(f, h, i, i + 1, baseline);
  }

  lemma {:induction false} WalkAgrees(f: seq<Sample>, h: seq<Sample>, n: nat)
    requires Agree(f, h) && n < |f| && OlderBy(f, n, 600.0)
    ensures Walk(h, n) == Walk(f, n) && BaselineAt(h, n) == BaselineAt(f, n)
    ensures forall k :: 1 <= k <= n ==> !Kind(f, k).Unconfirmed? && !Kind(h, k).Unconfirmed?
  {
    assert h[n] == f[n];
    if n > 0 {
      assert f[n - 1].t <= f[n].t;
      assert h[n - 1] == f[n - 1];
      WalkAgrees(f, h, n - 1);
      JudgementAgrees(f, h, n, BaselineAt(f, n - 1));
      SameStep(f, h, n, Walk(f, n - 1));
    }
  }

  // ----- the audit trail -----

  predicate Extends(longer: seq<Interval>, shorter: seq<Interval>) { shorter <= longer }

  lemma FinishExtends(t: Tally)
    ensures Extends(FinishWindow(t).closed, t.closed)
  {
  }

  lemma AdvanceExtends(s: seq<Sample>, i: nat, t: Tally)
    requires 1 <= i < |s|
    ensures Extends(Advance(s, i, t).closed, t.closed)
  {
    FinishExtends(t);
    FinishExtends(Counted(s, i, t));
  }

  lemma ExtendsChain(a: seq<Interval>, b: seq<Interval>, c: seq<Interval>)
    requires Extends(b, a) && Extends(c, b)
    ensures Extends(c, a)
  {
  }

  lemma {:induction false} ClosedStays(s: seq<Sample>, n: nat, m: nat)
    requires n <= m < |s|
    ensures Extends(Walk(s, m).closed, Walk(s, n).closed)
  {
    if n < m {
      ClosedStays(s, n, m - 1);
      AdvanceExtends(s, m, Walk(s, m - 1));
      ExtendsChain(Walk(s, n).closed, Walk(s, m - 1).closed, Walk(s, m).closed);
    }
  }

  lemma LastExtends(s: seq<Sample>, u: nat)
    requires s != [] && u == FirstUnconfirmed(s, 1)
    ensures Extends(LastTally(s).closed, Walk(s, u - 1).closed)
  {
    var w := Walk(s, u - 1);
    var f := FinishWindow(w);
    FinishExtends(w);
    if u < |s| {
      var g := f.(closed := f.closed + [Labelled(s[u - 1].t, s[|s| - 1].t, false, PendingRise, 0.0)]);
      FinishExtends(g);
      ExtendsChain(w.closed, f.closed, g.closed);
      ExtendsChain(w.closed, g.closed, FinishWindow(g).closed);
    }
  }

  lemma ClosedIsReported(s: seq<Sample>, n: nat)
    requires n < |s| && forall k :: 1 <= k <= n ==> !Kind(s, k).Unconfirmed?
    ensures Extends(LastTally(s).closed, Walk(s, n).closed)
  {
    var u := FirstUnconfirmed(s, 1);
    ClosedStays(s, n, u - 1);
    LastExtends(s, u);
    ExtendsChain(Walk(s, n).closed, Walk(s, u - 1).closed, LastTally(s).closed);
  }

  lemma SortedAppend(a: seq<Sample>, b: seq<Sample>)
    requires Sorted(a) && Sorted(b) && forall x, y :: x in a && y in b ==> Before(x, y)
    ensures Sorted(a + b)
  {
    forall i, j | 0 <= i < j < |a + b|
      ensures Before((a + b)[i], (a + b)[j])
    {
      if i < |a| <= j { assert a[i] in a && b[j - |a|] in b; }
    }
  }

  /** Readings that come after all earlier ones are simply appended. */
  lemma OrderedAppends(readings: seq<RawSample>, later: seq<RawSample>)
    requires forall x, y :: x in Ordered(readings) && y in Ordered(later) ==> Before(x, y)
    ensures Ordered(readings + later) == Ordered(readings) + Ordered(later)
  {
    var a, b, all := Ordered(readings), Ordered(later), Ordered(readings + later);
    forall x
      ensures multiset(all)[x] == multiset(a)[x] + multiset(b)[x]
    {
      OrderedKeepsEveryReading(readings, x);
      OrderedKeepsEveryReading(later, x);
      OrderedKeepsEveryReading(readings + later, x);
    }
    assert multiset(all) == multiset(a) + multiset(b) == multiset(a + b);
    SortedAppend(a, b);
    SortedUnique(all, a + b);
  }

  /** For any readings and any later ones: what the estimator books up to ten minutes before the last
      reading is final, and the windows closed by then are reported the same ever after. */
  lemma AuditTrailIsFinal(readings: seq<RawSample>, later: seq<RawSample>, n: nat)
    requires var s := Ordered(readings); |s| >= 2 && n < |s| && OlderBy(s, n, 600.0)
    requires forall x, y :: x in Ordered(readings) && y in Ordered(later) ==> Before(x, y)
    ensures var s, all := Ordered(readings), Ordered(readings + later);
      && |all| >= |s| && Walk(Filtered(all), n) == Walk(Filtered(s), n)
      && Extends(AverageConsumption(readings).intervals, Walk(Filtered(s), n).closed)
      && Extends(AverageConsumption(readings + later).intervals, Walk(Filtered(s), n).closed)
  {
    var s, more := Ordered(readings), Ordered(later);
    OrderedAppends(readings, later);
    SortedIsTimed(s);
    FilterKeepsTimes(s);
    FilteredAgree(s, more);
    WalkAgrees(Filtered(s), Filtered(s + more), n);
    ClosedIsReported(Filtered(s), n);
    ClosedIsReported(Filtered(s + more), n);
  }
}
