/** What the table shows of the waterings that were found. */
module StoredWaterings {
  import opened Samples
  import opened SortedSets
  import opened WateringDetection
  import opened EventStore
  import opened EventStoreTheorems
  import opened ScanConvergence
  import opened ScanConditions
  import opened WateringScan

  predicate NoneOf(rows: seq<Row>, device: DeviceId) {
    forall k :: 0 <= k < |rows| ==> rows[k].device != device
  }

  /** Behind `rows`, the table shows the events one after the other, each stored at its own time, none of them
      marked as fertilized. */
  predicate ShowsAll(rows: seq<Row>, later: seq<Row>, device: DeviceId, es: seq<WateringEvent>, times: seq<real>)
    requires |times| == |es|
  {
    && |later| == |rows| + |es| && later[..|rows|] == rows
    && forall k :: 0 <= k < |es| ==>
         Shows(later[|rows| + k], device, es[k], times[k])
         && later[|rows| + k].detectedAt == times[k] && !later[|rows| + k].fertilized
  }

  /** An event after all others is appended. */
  lemma NextIsAppended(rows: seq<Row>, mid: seq<Row>, device: DeviceId, es: seq<WateringEvent>, times: seq<real>,
                       e: WateringEvent, now: real)
    requires |times| == |es| && NoneOf(rows, device) && ShowsAll(rows, mid, device, es, times) && InOrder(es + [e])
    ensures Upsert(mid, device, e, now) == mid + [NewRow(NextId(mid), device, e, now)]
  {
    var all := es + [e];
    forall k: nat | k < |mid|
      ensures !SameStart(mid[k], device, e) && !SamePeak(mid[k], device, e)
    {
      if k < |rows| {
        assert mid[k] == mid[..|rows|][k];
      } else {
        EventsDiffer(all, k - |rows|, |es|);
        assert mid[|rows| + (k - |rows|)] == mid[k] && all[k - |rows|] == es[k - |rows|];
      }
    }
  }

  lemma ShowsOneMore(rows: seq<Row>, mid: seq<Row>, device: DeviceId, es: seq<WateringEvent>, times: seq<real>,
                     e: WateringEvent, now: real)
    requires |times| == |es| && NoneOf(rows, device) && ShowsAll(rows, mid, device, es, times) && InOrder(es + [e])
    ensures ShowsAll(rows, Upsert(mid, device, e, now), device, es + [e], times + [now])
  {
    NextIsAppended(rows, mid, device, es, times, e, now);
    var later := Upsert(mid, device, e, now);
    assert later[..|rows|] == mid[..|rows|];
    forall k | 0 <= k < |es|
      ensures later[|rows| + k] == mid[|rows| + k] && (es + [e])[k] == es[k] && (times + [now])[k] == times[k]
    {
    }
  }

  lemma {:induction false} PassStores(rows: seq<Row>, device: DeviceId, es: seq<WateringEvent>, times: seq<real>)
    requires |times| == |es| && NoneOf(rows, device) && InOrder(es)
    ensures ShowsAll(rows, Pass(rows, device, es, times), device, es, times)
    decreases |es|
  {
    if es != [] {
      var n := |es| - 1;
      assert es == es[..n] + [es[n]] && times == times[..n] + [times[n]];
      PassStores(rows, device, es[..n], times[..n]);
      PassSnoc(rows, device, es, times);
      ShowsOneMore(rows, Pass(rows, device, es[..n], times[..n]), device, es[..n], times[..n], es[n], times[n]);
    } else {
      assert rows[..|rows|] == rows;
    }
  }

  lemma NothingToTidy(rows: seq<Row>, device: DeviceId, maxAmount: real, above: real, copies: real)
    requires NoneOf(rows, device)
    ensures Tidy(rows, device, maxAmount, above, copies) == rows
  {
    TidyIdleExactlyWhen(rows, device, maxAmount, above, copies);
  }

  /** The first scan of a device leaves exactly the waterings it found, in order, each with its start, its peak,
      its two weights and its amount, all of them listed and none marked as fertilized. */
  lemma FirstScanShowsFindings(rows: seq<Row>, device: DeviceId, es: seq<WateringEvent>, maxAmount: real, times: seq<real>)
    requires |times| == |es| + 2 && NoneOf(rows, device) && InOrder(es)
    ensures ShowsAll(rows, Scan(rows, device, es, maxAmount, times), device, es, times[2..])
  {
    NothingToTidy(rows, device, maxAmount, times[0], times[1]);
    PassStores(rows, device, es, times[2..]);
  }

  // ----- amounts -----

  predicate AddsUp(r: Row) { r.amount == r.after - r.before }

  predicate AllAddUp(rows: seq<Row>) {
    forall k :: 0 <= k < |rows| ==> AddsUp(rows[k])
  }

  /** The event enlarges a row that began with another weight. */
  ghost predicate Misjoins(rows: seq<Row>, device: DeviceId, e: WateringEvent) {
    exists k :: 0 <= k < |rows| && Enlarges(e, rows[k], device) && rows[k].before != e.before
  }

  /** An upsert keeps every amount the difference of the two weights exactly when it does not enlarge a row
      that began with another weight. */
  lemma UpsertAddsUpExactlyWhen(rows: seq<Row>, device: DeviceId, e: WateringEvent, now: real)
    requires UniqueStarts(rows) && AllAddUp(rows) && e.amount == e.after - e.before
    ensures AllAddUp(Upsert(rows, device, e, now)) <==> !Misjoins(rows, device, e)
  {
    var later, k := Upsert(rows, device, e, now), FindStart(rows, device, e);
    if k < |rows| && Enlarges(e, rows[k], device) {
      assert AddsUp(later[k]) <==> rows[k].before == e.before;
      assert forall j :: 0 <= j < |rows| && Enlarges(e, rows[j], device) ==> j == k;
    } else {
      assert forall j :: 0 <= j < |rows| && SameStart(rows[j], device, e) ==> j == k;
    }
  }

  /** Every upsert of the run is of an event whose amount is the difference of its weights, and that agrees with
      the row it enlarges, if it enlarges one. */
  ghost predicate Joined(rows: seq<Row>, us: seq<Update>)
    decreases |us|
  {
    us == [] || (
      && (us[0].Upserted? ==> us[0].e.amount == us[0].e.after - us[0].e.before && !Misjoins(rows, us[0].device, us[0].e))
      && Joined(Step(rows, us[0]), us[1..]))
  }

  /** Over every such run each amount stays the difference of the two weights. */
  lemma {:induction false} RunKeepsAmounts(rows: seq<Row>, us: seq<Update>)
    requires UniqueStarts(rows) && AllAddUp(rows) && Joined(rows, us)
    ensures AllAddUp(Run(rows, us))
    decreases |us|
  {
    if us != [] {
      if us[0].Upserted? {
        UpsertKeepsWellFormed(rows, us[0].device, us[0].e, us[0].now);
        UpsertAddsUpExactlyWhen(rows, us[0].device, us[0].e, us[0].now);
      }
      RunKeepsAmounts(Step(rows, us[0]), us[1..]);
    }
  }

  // ----- the history behind the table -----

  ghost predicate WeightAt(history: History, t: real, w: real) {
    exists k :: k in history && k as real == t && history[k] == w
  }

  /** The weights are those of the history at the start and at the peak, and the amount is what lies between. */
  ghost predicate EventTrue(history: History, e: WateringEvent) {
    WeightAt(history, e.startAt, e.before) && WeightAt(history, e.occurredAt, e.after) && e.amount == e.after - e.before
  }

  ghost predicate RowTrue(history: History, r: Row) {
    WeightAt(history, r.startAt, r.before) && WeightAt(history, r.occurredAt, r.after) && AddsUp(r)
  }

  ghost predicate RowsTrue(history: History, rows: seq<Row>, device: DeviceId) {
    forall k :: 0 <= k < |rows| && rows[k].device == device ==> RowTrue(history, rows[k])
  }

  ghost predicate EventsTrue(history: History, es: seq<WateringEvent>) {
    forall e :: e in es ==> EventTrue(history, e)
  }

  lemma {:induction false} EventsFromSamples(s: seq<Sample>, i: nat, windowSec: real, threshold: real, e: WateringEvent)
    requires 1 <= i && e in EventsFrom(s, i, windowSec, threshold)
    ensures Sample(e.startAt, e.before) in s && Sample(e.occurredAt, e.after) in s && e.amount == e.after - e.before
    decreases |s| - i
  {
    if !Rises(s, i) {
      EventsFromSamples(s, i + 1, windowSec, threshold, e);
    } else {
      var stop := WindowStop(s, i + 1, s[i].t + windowSec);
      if e in EventsFrom(s, stop, windowSec, threshold) {
        EventsFromSamples(s, stop, windowSec, threshold, e);
      } else {
        assert e == EventOf(s, Window(i, stop));
      }
    }
  }

  lemma SortKeepsMembers(s: seq<Sample>, x: Sample)
    requires x in SortSamples(s)
    ensures x in s
  {
    assert x in multiset(SortSamples(s));
  }

  lemma ItemsAreHistory(history: History, m: History, x: Sample)
    requires m.Keys <= history.Keys && (forall k :: k in m ==> m[k] == history[k]) && x in SortedItems(m)
    ensures WeightAt(history, x.t, x.w)
  {
    var keys := SortedKeys(m.Keys);
    var k :| 0 <= k < |keys| && x == Sample(keys[k] as real, m[keys[k]]);
    assert keys[k] in keys;
  }

  lemma SampleOfHistory(history: History, m: History, x: Sample)
    requires m.Keys <= history.Keys && forall k :: k in m ==> m[k] == history[k]
    requires x in SortSamples(PositiveSamples(SortedItems(m)))
    ensures WeightAt(history, x.t, x.w)
  {
    SortKeepsMembers(PositiveSamples(SortedItems(m)), x);
    ItemsAreHistory(history, m, x);
  }

  /** Whatever a scan finds, its weights are those of the history. */
  lemma FindingsAreTrue(history: History, start: real, end: real, windowMin: nat, maxAmount: real)
    requires Findings(history, start, end, windowMin, maxAmount).Detected?
    ensures EventsTrue(history, Findings(history, start, end, windowMin, maxAmount).events)
  {
    var m := Collected(history, start, end, windowMin);
    var s := SortSamples(PositiveSamples(SortedItems(m)));
    forall e | e in Findings(history, start, end, windowMin, maxAmount).events
      ensures EventTrue(history, e)
    {
      assert e in EventsIn(s, WateringScan.Seconds(windowMin), MIN_DETECTED_WATERING_G);
      EventsFromSamples(s, 1, WateringScan.Seconds(windowMin), MIN_DETECTED_WATERING_G, e);
      SampleOfHistory(history, m, Sample(e.startAt, e.before));
      SampleOfHistory(history, m, Sample(e.occurredAt, e.after));
    }
  }

  lemma UpsertKeepsTrue(history: History, rows: seq<Row>, device: DeviceId, e: WateringEvent, now: real)
    requires RowsTrue(history, rows, device) && EventTrue(history, e)
    ensures RowsTrue(history, Upsert(rows, device, e, now), device)
  {
    var later, k := Upsert(rows, device, e, now), FindStart(rows, device, e);
    if k < |rows| {
      assert RowTrue(history, rows[k]);
    } else {
      assert later != rows ==> RowTrue(history, later[|rows|]);
    }
  }

  lemma {:induction false} PassKeepsTrue(history: History, rows: seq<Row>, device: DeviceId, es: seq<WateringEvent>, times: seq<real>)
    requires |times| == |es| && RowsTrue(history, rows, device) && EventsTrue(history, es)
    ensures RowsTrue(history, Pass(rows, device, es, times), device)
    decreases |es|
  {
    if es != [] {
      UpsertKeepsTrue(history, rows, device, es[0], times[0]);
      PassKeepsTrue(history, Upsert(rows, device, es[0], times[0]), device, es[1..], times[1..]);
    }
  }

  lemma TidyKeepsTrue(history: History, rows: seq<Row>, device: DeviceId, maxAmount: real, above: real, copies: real)
    requires RowsTrue(history, rows, device)
    ensures RowsTrue(history, Tidy(rows, device, maxAmount, above, copies), device)
  {
    var tidy := Tidy(rows, device, maxAmount, above, copies);
    forall k | 0 <= k < |tidy| && tidy[k].device == device
      ensures RowTrue(history, tidy[k])
    {
      assert RowTrue(history, rows[k]);
    }
  }

  /** A scan keeps every row of its device true to the history: its two weights are those at its start and at its
      peak, and its amount is the difference; so after any number of scans, of whatever ranges. */
  lemma ScanKeepsTrue(history: History, rows: seq<Row>, device: DeviceId, start: real, end: real, windowMin: nat,
                      maxAmount: real, clock: nat -> real)
    requires RowsTrue(history, rows, device) && Findings(history, start, end, windowMin, maxAmount).Detected?
    ensures var es := Findings(history, start, end, windowMin, maxAmount).events;
      RowsTrue(history, Scan(rows, device, es, maxAmount, Times(clock, 0, |es| + 2)), device)
  {
    var es := Findings(history, start, end, windowMin, maxAmount).events;
    var times := Times(clock, 0, |es| + 2);
    FindingsAreTrue(history, start, end, windowMin, maxAmount);
    TidyKeepsTrue(history, rows, device, maxAmount, times[0], times[1]);
    PassKeepsTrue(history, Tidy(rows, device, maxAmount, times[0], times[1]), device, es, times[2..]);
  }

  // ----- copies -----

  /** After the clean-up the device lists exactly its waterings without an older row of the same peak and the same
      two weights, and the count is that of the waterings that went. */
  lemma CopiesHideExactly(rows: seq<Row>, device: DeviceId, now: real)
    requires IncreasingIds(rows)
    ensures var after := MarkCopies(rows, device, now);
      && OnlyHides(rows, after, device)
      && (forall k :: 0 <= k < |rows| ==> (Visible(after[k], device) <==>
            Visible(rows[k], device) && forall j :: 0 <= j < k && rows[j].device == device ==>
              !(rows[j].occurredAt == rows[k].occurredAt && rows[j].before == rows[k].before && rows[j].after == rows[k].after)))
      && Changed(rows, after) == |VisibleIds(rows, device) - VisibleIds(after, device)|
      && forall other :: other != device ==> VisibleIds(after, other) == VisibleIds(rows, other)
  {
    var after := MarkCopies(rows, device, now);
    CountIsHidden(rows, after, device);
    OthersStayVisible(rows, after, device);
  }
}
