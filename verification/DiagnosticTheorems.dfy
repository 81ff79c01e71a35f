/** The evaluator applied to the estimator: what a period's report shows of its estimate. */
module DiagnosticTheorems {
  import opened Options
  import opened Samples
  import opened TransientFilter
  import opened ConsumptionTypes
  import opened ConsumptionAverage
  import opened ConsumptionAudit
  import opened Combination
  import opened Timeline
  import opened ConsumptionDiagnostics
  import opened CleanSignal

  lemma {:induction false} LaterIsApart(vs: seq<Interval>, k: nat, a: real, b: real)
    requires Following(vs) && Inside(vs, a, b) && 1 <= k < |vs|
    ensures vs[0].endAt <= vs[k].startAt
    decreases k
  {
    if k > 1 {
      LaterIsApart(vs, k - 1, a, b);
      assert vs[k - 1] in vs;
    }
  }

  lemma {:induction false} FollowingIsSeparate(vs: seq<Interval>, a: real, b: real)
    requires Following(vs) && Inside(vs, a, b)
    ensures Separate(vs)
  {
    if vs != [] {
      FollowingIsSeparate(vs[1..], a, b);
      forall w | w in vs[1..] ensures Apart(vs[0], w) {
        var k :| 0 <= k < |vs| - 1 && vs[1..][k] == w;
        LaterIsApart(vs, k + 1, a, b);
      }
    }
  }

  lemma ChainIsSeparate(vs: seq<Interval>, a: real, b: real, start: real, end: real)
    requires Chain(vs, a, b) && start <= a && b <= end
    ensures Separate(vs) && Inside(vs, start, end)
  {
    ChainTiles(vs, a, b);
    assert Following(vs) by {
      forall k | 1 <= k < |vs| ensures vs[k - 1].endAt <= vs[k].startAt { assert vs[k - 1].endAt == vs[k - 1 + 1].startAt; }
    }
    FollowingIsSeparate(vs, start, end);
  }

  /** An estimate made from the readings of a period lies inside that period. */
  lemma EstimateOfPeriod(readings: seq<RawSample>, start: real, end: real)
    requires start <= end
    ensures var e := AverageConsumption(WithinPeriod(readings, start, end));
      Separate(e.intervals) && Inside(e.intervals, start, end) && Balanced(e)
  {
    var rs := WithinPeriod(readings, start, end);
    EstimateIsAudited(rs);
    EstimatesMayBeCombined(rs);
    var s := Ordered(rs);
    if |s| >= 2 {
      var first, last := s[0], s[|s| - 1];
      assert first in s && last in s;
      assert InPeriod(RawSample(Finite(first.t), Finite(first.w)), start, end);
      assert InPeriod(RawSample(Finite(last.t), Finite(last.w)), start, end);
      ChainIsSeparate(AverageConsumption(rs).intervals, first.t, last.t, start, end);
    }
  }

  /** The report of one period accounts for all of it: the timeline covers the period once, its
      included time is the counted time and its grams are the consumed grams. */
  lemma PeriodIsFullyShown(readings: seq<RawSample>, start: real, end: real)
    requires start <= end
    ensures var e := AverageConsumption(WithinPeriod(readings, start, end));
      var tl := ReportOf(readings, e, start, end).intervals;
      && Faithful(tl, start, end, e.intervals)
      && Total(Seconds, tl) == ReportOf(readings, e, start, end).totalSeconds
      && Total(CountedSeconds, tl) == e.countedSeconds && Total(Change, tl) == e.change
      && forall v :: v in e.intervals ==> Shows(tl, v)
  {
    var e := AverageConsumption(WithinPeriod(readings, start, end));
    EstimateOfPeriod(readings, start, end);
    TimelineCovers(start, end, e.intervals);
    TimelineShowsEverything(start, end, e.intervals);
    ChainTiles(TimelineOf(start, end, e.intervals), start, end);
  }

  lemma {:induction false} SeparateJoin(vs: seq<Interval>, ws: seq<Interval>)
    requires Separate(vs) && Separate(ws) && forall v, w :: v in vs && w in ws ==> Apart(v, w)
    ensures Separate(vs + ws)
  {
    if vs == [] {
      assert vs + ws == ws;
    } else {
      SeparateJoin(vs[1..], ws);
      assert (vs + ws)[1..] == vs[1..] + ws;
    }
  }

  /** Two estimates whose intervals do not overlap, combined in the order given. */
  lemma CombinedShown(x: Estimate, y: Estimate, a: real, c: real)
    requires a <= c && Balanced(x) && Balanced(y) && Separate(x.intervals) && Separate(y.intervals)
    requires Inside(x.intervals, a, c) && Inside(y.intervals, a, c)
    requires forall v, w :: v in x.intervals && w in y.intervals ==> Apart(v, w)
    ensures var e := Combine([x, y]); var tl := TimelineOf(a, c, e.intervals);
      && Chain(tl, a, c) && NoTwins(tl)
      && Total(CountedSeconds, tl) == e.countedSeconds == x.countedSeconds + y.countedSeconds
      && Total(Change, tl) == e.change == x.change + y.change
  {
    var es := [x, y];
    assert es[1..] == [y] && [y][1..] == [] && y.intervals + [] == y.intervals;
    assert AllIntervals([y]) == y.intervals;
    assert AllIntervals(es) == x.intervals + y.intervals;
    CombinationConserves(es);
    TotalAppend(CountedSeconds, x.intervals, y.intervals);
    TotalAppend(Change, x.intervals, y.intervals);
    SeparateJoin(x.intervals, y.intervals);
    TimelineCovers(a, c, x.intervals + y.intervals);
  }

  /** The combined report of two adjoining periods, in whichever order the two estimates are listed:
      the timeline covers both once, and nothing of either estimate is lost. */
  lemma DayIsFullyShown(readings: seq<RawSample>, a: real, b: real, c: real, dayFirst: bool)
    requires a <= b <= c
    ensures var d := AverageConsumption(WithinPeriod(readings, a, b));
      var n := AverageConsumption(WithinPeriod(readings, b, c));
      var e := Combine(if dayFirst then [d, n] else [n, d]);
      var tl := ReportOf(readings, e, a, c).intervals;
      && Chain(tl, a, c) && NoTwins(tl)
      && Total(CountedSeconds, tl) == e.countedSeconds == d.countedSeconds + n.countedSeconds
      && Total(Change, tl) == e.change == d.change + n.change
  {
    var d := AverageConsumption(WithinPeriod(readings, a, b));
    var n := AverageConsumption(WithinPeriod(readings, b, c));
    EstimateOfPeriod(readings, a, b);
    EstimateOfPeriod(readings, b, c);
    if dayFirst { CombinedShown(d, n, a, c); } else { CombinedShown(n, d, a, c); }
  }

  // ----- agreement -----

  lemma {:induction false} AllInPeriod(s: seq<Sample>, start: real, end: real)
    requires forall k :: 0 <= k < |s| ==> start <= s[k].t <= end
    ensures WithinPeriod(AsRaw(s), start, end) == AsRaw(s)
  {
    if s != [] {
      assert AsRaw(s)[1..] == AsRaw(s[1..]);
      AllInPeriod(s[1..], start, end);
      assert AsRaw(s) == [AsRaw(s)[0]] + AsRaw(s[1..]);
    }
  }

  lemma SameRates(x: real, h: real)
    requires h > 0.0
    ensures -(x / h) == -x / h
  {
    var q := x / h;
    assert q * h == x;
    assert (-q) * h == -x;
    assert (-x) / h * h == -x;
    assert (-x / h + q) * h == 0.0;
  }

  lemma FullAgreement(r: real)
    requires r > 0.0
    ensures r / r * 100.0 == 100.0
  {
  }

  lemma LossIsNegatedRate(first: Sample, last: Sample)
    requires first.t < last.t && last.w <= first.w
    ensures LossRate(first, last) == -EndpointRate(first, last)
    ensures LossRate(first, last) > 0.0 <==> last.w < first.w
  {
    var h := (last.t - first.t) / 3600.0;
    SameRates(last.w - first.w, h);
    var raw := LossRate(first, last);
    assert raw * h == first.w - last.w;
    assert raw > 0.0 ==> raw * h > 0.0;
    assert raw <= 0.0 ==> raw * h <= 0.0;
  }

  lemma AgreementWith(rate: real)
    ensures Agreement(Some(rate), Some(rate)) == if rate > 0.0 then Some(100.0) else None
  {
    if rate > 0.0 { FullAgreement(rate); }
  }

  /** The figures of a report, by themselves. */
  predicate FullyAgrees(report: Report, first: Sample, last: Sample) {
    && report.endpointRate == report.rate && report.endpointConsumed == report.consumed
    && report.agreement == if last.w < first.w then Some(100.0) else None
  }

  lemma ExactRates(e: Estimate, s: seq<Sample>)
    requires s != [] && s[0].t < s[|s| - 1].t && s[|s| - 1].w <= s[0].w && Exact(e, s[0], s[|s| - 1])
    ensures RawRate(s) == Negated(e.rate)
    ensures Agreement(RawRate(s), Negated(e.rate)) == if s[|s| - 1].w < s[0].w then Some(100.0) else None
  {
    var first, last := s[0], s[|s| - 1];
    LossIsNegatedRate(first, last);
    AgreementWith(LossRate(first, last));
    SameLoss(e.rate, first, last, s);
  }

  lemma SameLoss(rate: Option<real>, first: Sample, last: Sample, s: seq<Sample>)
    requires s != [] && s[0] == first && s[|s| - 1] == last && first.t < last.t
    requires rate == Some(EndpointRate(first, last)) && LossRate(first, last) == -EndpointRate(first, last)
    ensures RawRate(s) == Some(LossRate(first, last)) == Negated(rate)
  {
  }

  lemma AgreeingFigures(report: Report, e: Estimate, s: seq<Sample>)
    requires s != [] && RawRate(s) == Negated(e.rate) && RawConsumed(s) == Some(-e.change) && e.countedSeconds > 0.0
    requires Agreement(RawRate(s), Negated(e.rate)) == if s[|s| - 1].w < s[0].w then Some(100.0) else None
    requires report.rate == Negated(e.rate) && report.endpointRate == RawRate(s)
    requires report.endpointConsumed == RawConsumed(s) && report.consumed == Some(-e.change)
    requires report.agreement == Agreement(RawRate(s), Negated(e.rate))
    ensures FullyAgrees(report, s[0], s[|s| - 1])
  {
  }

  lemma ExactReport(s: seq<Sample>, e: Estimate, start: real, end: real)
    requires s != [] && s[0].t < s[|s| - 1].t && s[|s| - 1].w <= s[0].w && Exact(e, s[0], s[|s| - 1])
    ensures FullyAgrees(ReportOn(s, e, start, end), s[0], s[|s| - 1])
  {
    ExactRates(e, s);
    AgreeingFigures(ReportOn(s, e, start, end), e, s);
  }

  lemma CleanPeriod(s: seq<Sample>, start: real, end: real)
    requires Clean(s) && Positive(s) && start <= s[0].t && s[|s| - 1].t <= end
    ensures Ordered(WithinPeriod(AsRaw(s), start, end)) == s
  {
    var last := |s| - 1;
    forall k | 0 <= k < |s| ensures start <= s[k].t <= end {
      if 0 < k { CleanIsTimed(s, 0, k); }
      if k < last { CleanIsTimed(s, k, last); }
    }
    AllInPeriod(s, start, end);
    forall i, j | 0 <= i < j < |s| ensures Before(s[i], s[j]) { CleanIsTimed(s, i, j); }
    OrderedOfRaw(s);
  }

  /** On a clean signal the evaluator finds the estimator in full agreement with the raw end points,
      whenever there was any loss to agree on. */
  lemma CleanSignalAgrees(s: seq<Sample>, start: real, end: real)
    requires Clean(s) && Positive(s) && start <= s[0].t && s[|s| - 1].t <= end
    ensures FullyAgrees(ReportOf(AsRaw(s), AverageConsumption(AsRaw(s)), start, end), s[0], s[|s| - 1])
  {
    CleanSignalIsExact(s);
    CleanIsTimed(s, 0, |s| - 1);
    CleanPeriod(s, start, end);
    ExactReport(s, AverageConsumption(AsRaw(s)), start, end);
  }

  // ----- the figures of any report -----

  /** What the end points have lost is their rate over the span. */
  predicate EndpointsFit(consumed: Option<real>, rate: Option<real>, s: seq<Sample>) {
    var span := if s == [] then 0.0 else s[|s| - 1].t - s[0].t;
    && (consumed.Some? <==> span > 0.0) && (rate.Some? <==> span > 0.0)
    && (span > 0.0 ==> consumed.value == s[0].w - s[|s| - 1].w && rate.value * (span / 3600.0) == consumed.value)
  }

  /** The agreement is the end-point rate in percent of the estimated one, if that is a loss. */
  predicate AgreementFits(agreement: Option<real>, raw: Option<real>, rate: Option<real>) {
    && (agreement.Some? <==> raw.Some? && rate.Some? && rate.value > 0.0)
    && (agreement.Some? ==> agreement.value * rate.value == raw.value * 100.0)
  }

  /** The figures that a report takes over from the estimate and the period. */
  predicate TakenOver(r: Report, e: Estimate, start: real, end: real) {
    && r.countedSeconds == e.countedSeconds && r.filteredSamples == e.filteredSamples
    && r.totalSeconds == (if start <= end then end - start else 0.0)
    && (r.consumed.Some? <==> e.countedSeconds > 0.0) && (r.consumed.Some? ==> r.consumed.value + e.change == 0.0)
    && (r.rate.Some? <==> e.rate.Some?) && (r.rate.Some? ==> r.rate.value + e.rate.value == 0.0)
  }

  lemma EndpointsOf(s: seq<Sample>)
    ensures EndpointsFit(RawConsumed(s), RawRate(s), s)
  {
    if SpanOf(s) > 0.0 {
      var h := SpanOf(s) / 3600.0;
      assert (s[0].w - s[|s| - 1].w) / h * h == s[0].w - s[|s| - 1].w;
    }
  }

  lemma AgreementOf(raw: Option<real>, rate: Option<real>)
    ensures AgreementFits(Agreement(raw, rate), raw, rate)
  {
    if raw.Some? && rate.Some? && rate.value > 0.0 {
      var q := raw.value / rate.value;
      assert q * rate.value == raw.value;
      assert q * 100.0 * rate.value == q * rate.value * 100.0;
    }
  }

  lemma TakenFrom(s: seq<Sample>, e: Estimate, start: real, end: real)
    ensures TakenOver(ReportOn(s, e, start, end), e, start, end)
  {
  }

  /** For any readings, any estimate and any period the figures of the report fit together: the end-point rate
      over the span is what the end points have lost, and the agreement is that rate in percent of the estimated
      one; the rest is taken over as it is. */
  lemma FiguresFitTogether(readings: seq<RawSample>, e: Estimate, start: real, end: real)
    ensures var r := ReportOf(readings, e, start, end); var s := Ordered(WithinPeriod(readings, start, end));
      && r.spanSeconds == (if s == [] then 0.0 else s[|s| - 1].t - s[0].t)
      && EndpointsFit(r.endpointConsumed, r.endpointRate, s) && AgreementFits(r.agreement, r.endpointRate, r.rate)
      && TakenOver(r, e, start, end)
  {
    var s := Ordered(WithinPeriod(readings, start, end));
    EndpointsOf(s);
    AgreementOf(RawRate(s), Negated(e.rate));
    TakenFrom(s, e, start, end);
  }
}
