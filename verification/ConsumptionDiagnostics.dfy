/** The evaluator: it compares a supplied estimate with the raw end points and lays out its timeline,
    without running the estimator and without touching the supplied result. */
module ConsumptionDiagnostics {
  import opened Numbers
  import opened Options
  import opened Samples
  import opened ConsumptionTypes
  import opened ConsumptionAverage
  import opened ConsumptionAudit
  import opened Timeline

  datatype Report = Report(
    countedSeconds: real, totalSeconds: real, spanSeconds: real,
    consumed: Option<real>, rate: Option<real>,
    endpointConsumed: Option<real>, endpointRate: Option<real>, agreement: Option<real>,
    filteredSamples: nat, intervals: seq<Interval>)

  predicate InPeriod(r: RawSample, start: real, end: real) {
    r.at.Finite? && start <= r.at.value <= end
  }

  function WithinPeriod(readings: seq<RawSample>, start: real, end: real): (rs: seq<RawSample>)
    ensures forall r :: r in rs <==> r in readings && InPeriod(r, start, end)
  {
    if readings == [] then []
    else (if InPeriod(readings[0], start, end) then [readings[0]] else []) + WithinPeriod(readings[1..], start, end)
  }

  function SpanOf(ordered: seq<Sample>): real {
    if ordered == [] then 0.0 else ordered[|ordered| - 1].t - ordered[0].t
  }

  function RawConsumed(ordered: seq<Sample>): Option<real> {
    if SpanOf(ordered) > 0.0 then Some(ordered[0].w - ordered[|ordered| - 1].w) else None
  }

  function LossRate(first: Sample, last: Sample): real
    requires first.t < last.t
  {
    (first.w - last.w) / ((last.t - first.t) / 3600.0)
  }

  function RawRate(ordered: seq<Sample>): Option<real> {
    if SpanOf(ordered) > 0.0 then Some(LossRate(ordered[0], ordered[|ordered| - 1])) else None
  }

  function Agreement(rawRate: Option<real>, rate: Option<real>): Option<real> {
    if rawRate.Some? && rate.Some? && rate.value > 0.0 then Some(rawRate.value / rate.value * 100.0) else None
  }

  function Negated(r: Option<real>): Option<real> { if r.Some? then Some(-r.value) else None }

  function ReportOn(ordered: seq<Sample>, e: Estimate, start: real, end: real): Report {
    Report(e.countedSeconds, Max(0.0, end - start), SpanOf(ordered),
           if e.countedSeconds > 0.0 then Some(-e.change) else None, Negated(e.rate),
           RawConsumed(ordered), RawRate(ordered), Agreement(RawRate(ordered), Negated(e.rate)),
           e.filteredSamples, TimelineOf(start, end, e.intervals))
  }

  function ReportOf(readings: seq<RawSample>, e: Estimate, start: real, end: real): Report {
    ReportOn(Ordered(WithinPeriod(readings, start, end)), e, start, end)
  }

  // ----- as the program runs it -----

  lemma ValuesCons(records: seq<ConsumptionInterval>)
    requires records != []
    ensures Values(records) == [records[0].Value()] + Values(records[1..])
  {
  }

  method InsertRecord(record: ConsumptionInterval, records: seq<ConsumptionInterval>) returns (r: seq<ConsumptionInterval>)
    ensures Values(r) == InsertByStart(record.Value(), Values(records))
  {
    if records == [] || record.startAt <= records[0].startAt {
      r := [record] + records;
      assert r[1..] == records;
    } else {
      var rest := InsertRecord(record, records[1..]);
      r := [records[0]] + rest;
      assert r[1..] == rest;
      ValuesCons(records);
    }
    ValuesCons(r);
  }

  method SortRecords(records: seq<ConsumptionInterval>) returns (r: seq<ConsumptionInterval>)
    ensures Values(r) == SortByStart(Values(records))
  {
    if records == [] {
      r := [];
    } else {
      var first, tail := records[0], records[1..];
      var rest := SortRecords(tail);
      r := InsertRecord(first, rest);
      SortedValues(first.Value(), Values(tail), Values(records), Values(rest), records);
    }
  }

  lemma SortedValues(v: Interval, tail: seq<Interval>, all: seq<Interval>, rest: seq<Interval>, records: seq<ConsumptionInterval>)
    requires records != [] && all == Values(records) && tail == Values(records[1..]) && v == records[0].Value()
    requires rest == SortByStart(tail)
    ensures SortByStart(all) == InsertByStart(v, rest)
  {
    ValuesCons(records);
    SortCons(v, tail);
  }

  lemma SortCons(v: Interval, vs: seq<Interval>)
    ensures SortByStart([v] + vs) == InsertByStart(v, SortByStart(vs))
  {
    assert ([v] + vs)[1..] == vs;
  }

  class TimelineBuilder {
    var intervals: seq<ConsumptionInterval>

    constructor ()
      ensures intervals == []
    {
      intervals := [];
    }

    ghost function Records(): set<ConsumptionInterval>
      reads this
    {
      set c | c in intervals
    }

    /** Extend the last interval in place, or append a copy; the interval passed in stays as it is. */
    method Append(interval: ConsumptionInterval)
      requires Distinct(intervals) && interval !in intervals
      modifies this, Records()
      ensures Distinct(intervals) && Values(intervals) == Timeline.Append(old(Values(intervals)), old(interval.Value()))
      ensures fresh(Records() - old(Records()))
    {
      ghost var was := Values(intervals);
      if interval.endAt <= interval.startAt {
        return;
      }
      var n := |intervals|;
      if n > 0 {
        var last := intervals[n - 1];
        if && last.endAt == interval.startAt && last.included == interval.included
           && last.reason == interval.reason && last.caption == interval.caption {
          last.endAt := interval.endAt;
          last.change := last.change + interval.change;
          assert Values(intervals) == was[..n - 1] + [last.Value()];
          return;
        }
      }
      var copy := new ConsumptionInterval(Interval(
        interval.startAt, interval.endAt, interval.included, interval.reason, interval.change, interval.caption));
      assert copy !in intervals;
      intervals := intervals + [copy];
      assert Values(intervals) == was + [copy.Value()];
    }

    method AppendAbsent(a: real, b: real)
      requires Distinct(intervals)
      modifies this, Records()
      ensures Distinct(intervals) && Values(intervals) == Timeline.Append(old(Values(intervals)), Absent(a, b))
      ensures fresh(Records() - old(Records()))
    {
      var hole := new ConsumptionInterval(Absent(a, b));
      Append(hole);
    }

    /** One turn of the loop over the sorted intervals. */
    method LayRecord(interval: ConsumptionInterval, cursor: real)
      requires Distinct(intervals) && interval !in intervals
      modifies this, Records()
      ensures Distinct(intervals) && Values(intervals) == Lay(old(Values(intervals)), cursor, old(interval.Value()))
      ensures fresh(Records() - old(Records()))
    {
      if interval.startAt > cursor {
        AppendAbsent(cursor, interval.startAt);
      }
      assert interval !in Records();
      Append(interval);
    }
  }

  /** The loop that advances the cursor over the sorted intervals. */
  method LaySorted(builder: TimelineBuilder, sorted: seq<ConsumptionInterval>, start: real) returns (cursor: real)
    requires builder.intervals == []
    modifies builder
    ensures Distinct(builder.intervals) && fresh(builder.Records())
    ensures cursor == CursorAfter(start, old(Values(sorted)))
    ensures Values(builder.intervals) == Laid(start, old(Values(sorted)))
  {
    ghost var vs := Values(sorted);
    cursor := start;
    for k := 0 to |sorted|
      invariant fresh(builder.Records()) && Distinct(builder.intervals)
      invariant forall i :: 0 <= i < |sorted| ==> sorted[i] !in builder.Records() && sorted[i].Value() == vs[i]
      invariant cursor == CursorAfter(start, vs[..k])
      invariant Values(builder.intervals) == Laid(start, vs[..k])
    {
      LaidStep(start, vs, k);
      builder.LayRecord(sorted[k], cursor);
      cursor := sorted[k].endAt;
    }
    assert vs[..|sorted|] == vs;
  }

  method CompleteTimeline(sorted: seq<ConsumptionInterval>, start: real, end: real) returns (tl: seq<Interval>)
    ensures tl == Completed(start, end, Values(sorted))
  {
    ghost var vs := Values(sorted);
    var builder := new TimelineBuilder();
    var cursor := LaySorted(builder, sorted, start);
    if cursor < end {
      builder.AppendAbsent(cursor, end);
    }
    tl := Values(builder.intervals);
    assert Values(sorted) == vs;
  }

  /** The whole timeline. Nothing that existed before the call is modified. */
  method BuildTimeline(records: seq<ConsumptionInterval>, start: real, end: real) returns (tl: seq<Interval>)
    ensures tl == TimelineOf(start, end, Values(records))
  {
    ghost var vs := Values(records);
    var sorted := SortRecords(records);
    tl := CompleteTimeline(sorted, start, end);
    assert Values(records) == vs;
  }

  lemma LaidStep(start: real, vs: seq<Interval>, k: nat)
    requires k < |vs|
    ensures Laid(start, vs[..k + 1]) == Lay(Laid(start, vs[..k]), CursorAfter(start, vs[..k]), vs[k])
    ensures CursorAfter(start, vs[..k + 1]) == vs[k].endAt
  {
    assert vs[..k + 1][..k] == vs[..k];
  }

  method Diagnose(readings: seq<RawSample>, result: AverageConsumptionResult, start: real, end: real) returns (report: Report)
    ensures report == ReportOf(readings, result.Value(), start, end)
  {
    var ordered := Ordered(WithinPeriod(readings, start, end));
    var rate := Negated(result.rate);
    var tl := BuildTimeline(result.intervals, start, end);
    report := Report(result.countedSeconds, Max(0.0, end - start), SpanOf(ordered),
                     if result.countedSeconds > 0.0 then Some(-result.change) else None, rate,
                     RawConsumed(ordered), RawRate(ordered), Agreement(RawRate(ordered), rate),
                     result.filteredSamples, tl);
  }
}
