/** Detection of waterings: each rise opens a time window, and the latest maximum inside it is the peak. */
module WateringDetection {
  import opened Samples

  datatype WateringEvent = WateringEvent(startAt: real, occurredAt: real, before: real, after: real, amount: real)

  datatype Detection = Detected(events: seq<WateringEvent>) | Rejected(reason: string)

  /** The samples `lo..hi`, taken together; sample `lo` is the first one after the rise. */
  datatype Window = Window(lo: nat, hi: nat)

  predicate Rises(s: seq<Sample>, k: nat)
    requires 1 <= k < |s|
  {
    s[k].w > s[k - 1].w
  }

  /** The first sample from `k` on that lies after `end`. */
  function WindowStop(s: seq<Sample>, k: nat, end: real): (stop: nat)
    requires k <= |s|
    ensures k <= stop <= |s| && (stop < |s| ==> s[stop].t > end)
    ensures forall j :: k <= j < stop ==> s[j].t <= end
    decreases |s| - k
  {
    if k < |s| && s[k].t <= end then WindowStop(s, k + 1, end) else k
  }

  /** One sample tops another by weight, then by time. */
  predicate Tops(a: Sample, b: Sample) { a.w > b.w || (a.w == b.w && a.t > b.t) }

  function PeakOf(s: seq<Sample>, lo: nat, hi: nat): (p: nat)
    requires lo < hi <= |s|
    ensures lo <= p < hi && forall k :: lo <= k < hi ==> !Tops(s[k], s[p])
  {
    if hi == lo + 1 then lo
    else
      var p := PeakOf(s, lo, hi - 1);
      if Tops(s[hi - 1], s[p]) then hi - 1 else p
  }

  function Windows(s: seq<Sample>, i: nat, windowSec: real): seq<Window>
    requires 1 <= i
    decreases |s| - i
  {
    if i >= |s| then []
    else if !Rises(s, i) then Windows(s, i + 1, windowSec)
    else
      var stop := WindowStop(s, i + 1, s[i].t + windowSec);
      [Window(i, stop)] + Windows(s, stop, windowSec)
  }

  predicate InRange(s: seq<Sample>, v: Window) { 1 <= v.lo < v.hi <= |s| }

  function EventOf(s: seq<Sample>, v: Window): WateringEvent
    requires InRange(s, v)
  {
    var before, peak := s[v.lo - 1], s[PeakOf(s, v.lo, v.hi)];
    WateringEvent(before.t, peak.t, before.w, peak.w, peak.w - before.w)
  }

  /** What the scan finds from sample `i` on. */
  function EventsFrom(s: seq<Sample>, i: nat, windowSec: real, threshold: real): seq<WateringEvent>
    requires 1 <= i
    decreases |s| - i
  {
    if i >= |s| then []
    else if !Rises(s, i) then EventsFrom(s, i + 1, windowSec, threshold)
    else
      var stop := WindowStop(s, i + 1, s[i].t + windowSec);
      var e := EventOf(s, Window(i, stop));
      (if e.amount >= threshold then [e] else []) + EventsFrom(s, stop, windowSec, threshold)
  }

  function PositiveSamples(samples: seq<Sample>): (r: seq<Sample>)
    ensures forall x :: x in r <==> x in samples && x.w > 0.0
  {
    if samples == [] then []
    else (if samples[0].w > 0.0 then [samples[0]] else []) + PositiveSamples(samples[1..])
  }

  /** What the detector finds in sorted positive samples. */
  function EventsIn(s: seq<Sample>, windowSec: real, threshold: real): seq<WateringEvent> {
    EventsFrom(s, 1, windowSec, threshold)
  }

  function Detect(samples: seq<Sample>, windowSec: real, threshold: real, maxAmount: real): Detection {
    if windowSec <= 0.0 then Rejected("window_sec must be > 0")
    else if maxAmount <= threshold then Rejected("max_amount_g must be greater than threshold_g")
    else Detected(EventsIn(SortSamples(PositiveSamples(samples)), windowSec, threshold))
  }

  /** The scan with its moving index. */
  method DetectWateringEvents(samples: seq<Sample>, windowSec: real, threshold: real, maxAmount: real) returns (r: Detection)
    ensures r == Detect(samples, windowSec, threshold, maxAmount)
    ensures r.Rejected? <==> windowSec <= 0.0 || maxAmount <= threshold
  {
    if windowSec <= 0.0 {
      return Rejected("window_sec must be > 0");
    }
    if maxAmount <= threshold {
      return Rejected("max_amount_g must be greater than threshold_g");
    }
    var ordered := SortSamples(PositiveSamples(samples));
    if |ordered| < 2 {
      return Detected([]);
    }
    var events := ScanRises(ordered, windowSec, threshold);
    return Detected(events);
  }

  method ScanRises(ordered: seq<Sample>, windowSec: real, threshold: real) returns (events: seq<WateringEvent>)
    ensures events == EventsIn(ordered, windowSec, threshold)
  {
    events := [];
    var index := 1;
    while index < |ordered|
      invariant 1 <= index
      invariant events + EventsFrom(ordered, index, windowSec, threshold) == EventsIn(ordered, windowSec, threshold)
    {
      var before, current := ordered[index - 1], ordered[index];
      if current.w <= before.w {
        index := index + 1;
        continue;
      }
      var windowEnd := current.t + windowSec;
      var windowStop := index + 1;
      while windowStop < |ordered| && ordered[windowStop].t <= windowEnd
        invariant index < windowStop <= |ordered|
        invariant WindowStop(ordered, windowStop, windowEnd) == WindowStop(ordered, index + 1, windowEnd)
      {
        windowStop := windowStop + 1;
      }
      var peak := ordered[PeakOf(ordered, index, windowStop)];
      var amount := peak.w - before.w;
      if amount >= threshold {
        events := events + [WateringEvent(before.t, peak.t, before.w, peak.w, amount)];
      }
      index := windowStop;
    }
  }

  // ----- what the windows and the events are -----

  predicate InWindow(v: Window, k: nat) { v.lo <= k < v.hi }

  /** A window opens at a rise and reaches exactly as far as the window time allows. */
  predicate WellPlaced(s: seq<Sample>, v: Window, windowSec: real) {
    && InRange(s, v) && s[v.lo - 1].w < s[v.lo].w
    && (forall k :: v.lo < k < v.hi ==> s[k].t <= s[v.lo].t + windowSec)
    && (v.hi < |s| ==> s[v.hi].t > s[v.lo].t + windowSec)
  }

  predicate AllPlaced(s: seq<Sample>, vs: seq<Window>, windowSec: real, i: nat) {
    forall k :: 0 <= k < |vs| ==> WellPlaced(s, vs[k], windowSec) && i <= vs[k].lo
  }

  /** Windows that follow one another. */
  predicate Successive(vs: seq<Window>) {
    forall a, b :: 0 <= a < b < |vs| ==> vs[a].hi <= vs[b].lo
  }

  lemma PlacedCons(s: seq<Sample>, v: Window, vs: seq<Window>, windowSec: real, i: nat)
    requires WellPlaced(s, v, windowSec) && i <= v.lo && AllPlaced(s, vs, windowSec, v.hi) && Successive(vs)
    ensures AllPlaced(s, [v] + vs, windowSec, i) && Successive([v] + vs)
  {
  }

  lemma {:induction false} WindowsArePlaced(s: seq<Sample>, i: nat, windowSec: real)
    requires 1 <= i
    ensures AllPlaced(s, Windows(s, i, windowSec), windowSec, i) && Successive(Windows(s, i, windowSec))
    decreases |s| - i
  {
    if i < |s| {
      if !Rises(s, i) {
        WindowsArePlaced(s, i + 1, windowSec);
      } else {
        var stop := WindowStop(s, i + 1, s[i].t + windowSec);
        WindowsArePlaced(s, stop, windowSec);
        PlacedCons(s, Window(i, stop), Windows(s, stop, windowSec), windowSec, i);
      }
    }
  }

  lemma {:induction false} RiseInSomeWindow(s: seq<Sample>, i: nat, windowSec: real, k: nat)
    requires 1 <= i <= k < |s| && Rises(s, k)
    ensures exists a :: 0 <= a < |Windows(s, i, windowSec)| && InWindow(Windows(s, i, windowSec)[a], k)
    decreases |s| - i
  {
    var vs := Windows(s, i, windowSec);
    if !Rises(s, i) {
      RiseInSomeWindow(s, i + 1, windowSec, k);
    } else {
      var stop := WindowStop(s, i + 1, s[i].t + windowSec);
      if k < stop {
        assert InWindow(vs[0], k);
      } else {
        RiseInSomeWindow(s, stop, windowSec, k);
        var a :| 0 <= a < |Windows(s, stop, windowSec)| && InWindow(Windows(s, stop, windowSec)[a], k);
        assert InWindow(vs[a + 1], k);
      }
    }
  }

  /** Every rise lies in exactly one window. */
  lemma EveryRiseInOneWindow(s: seq<Sample>, windowSec: real, k: nat)
    requires 1 <= k < |s| && s[k - 1].w < s[k].w
    ensures var vs := Windows(s, 1, windowSec);
      && (exists a :: 0 <= a < |vs| && InWindow(vs[a], k))
      && forall a, b :: 0 <= a < |vs| && 0 <= b < |vs| && InWindow(vs[a], k) && InWindow(vs[b], k) ==> a == b
  {
    RiseInSomeWindow(s, 1, windowSec, k);
    WindowsArePlaced(s, 1, windowSec);
  }

  predicate StrictlyTimed(s: seq<Sample>) {
    forall i, j :: 0 <= i < j < |s| ==> s[i].t < s[j].t
  }

  /** What an event says about its window: it starts at the sample before the rise, and its peak is the
      latest of the heaviest samples within the window time. */
  ghost predicate Describes(s: seq<Sample>, e: WateringEvent, v: Window, windowSec: real) {
    && WellPlaced(s, v, windowSec)
    && e.startAt == s[v.lo - 1].t && e.before == s[v.lo - 1].w && e.amount == e.after - e.before
    && (exists p: nat :: InWindow(v, p) && s[p] == Sample(e.occurredAt, e.after))
    && (forall k: nat :: InWindow(v, k) ==> s[k].w <= e.after && (s[k].w == e.after ==> s[k].t <= e.occurredAt))
  }

  lemma EventDescribesWindow(s: seq<Sample>, v: Window, windowSec: real)
    requires StrictlyTimed(s) && WellPlaced(s, v, windowSec)
    ensures Describes(s, EventOf(s, v), v, windowSec)
    ensures EventOf(s, v).startAt < EventOf(s, v).occurredAt <= s[v.hi - 1].t
  {
    var p := PeakOf(s, v.lo, v.hi);
    assert InWindow(v, p) && s[p] == Sample(EventOf(s, v).occurredAt, EventOf(s, v).after);
  }

  /** Events come in time order, each peak no later than the next start. */
  predicate InOrder(es: seq<WateringEvent>) {
    && (forall k :: 0 <= k < |es| ==> es[k].startAt < es[k].occurredAt)
    && (forall j, k :: 0 <= j < k < |es| ==> es[j].occurredAt <= es[k].startAt)
  }

  lemma FirstWindow(s: seq<Sample>, i: nat, windowSec: real)
    requires StrictlyTimed(s) && 1 <= i < |s| && Rises(s, i)
    ensures var v := Window(i, WindowStop(s, i + 1, s[i].t + windowSec));
      && WellPlaced(s, v, windowSec) && Describes(s, EventOf(s, v), v, windowSec)
      && s[i - 1].t == EventOf(s, v).startAt < EventOf(s, v).occurredAt <= s[v.hi - 1].t
  {
    EventDescribesWindow(s, Window(i, WindowStop(s, i + 1, s[i].t + windowSec)), windowSec);
  }

  predicate StartFrom(es: seq<WateringEvent>, from: real) {
    forall k :: 0 <= k < |es| ==> from <= es[k].startAt
  }

  lemma OrderedCons(e: WateringEvent, es: seq<WateringEvent>, from: real, next: real)
    requires InOrder(es) && StartFrom(es, next) && from <= e.startAt < e.occurredAt <= next
    ensures InOrder([e] + es) && StartFrom([e] + es, from) && StartFrom(es, from)
  {
  }

  /** Events come in the order of their windows. */
  lemma {:induction false} EventsAreInOrder(s: seq<Sample>, i: nat, windowSec: real, threshold: real)
    requires StrictlyTimed(s) && 1 <= i <= |s|
    ensures InOrder(EventsFrom(s, i, windowSec, threshold)) && StartFrom(EventsFrom(s, i, windowSec, threshold), s[i - 1].t)
    decreases |s| - i
  {
    if i < |s| {
      if !Rises(s, i) {
        EventsAreInOrder(s, i + 1, windowSec, threshold);
      } else {
        var stop := WindowStop(s, i + 1, s[i].t + windowSec);
        EventsAreInOrder(s, stop, windowSec, threshold);
        var e, rest := EventOf(s, Window(i, stop)), EventsFrom(s, stop, windowSec, threshold);
        assert e.startAt == s[i - 1].t && e.startAt < e.occurredAt <= s[stop - 1].t by { FirstWindow(s, i, windowSec); }
        OrderedCons(e, rest, s[i - 1].t, s[stop - 1].t);
        assert [] + rest == rest;
      }
    }
  }

  /** `e` is the event of one of the windows. */
  ghost predicate FromWindow(s: seq<Sample>, vs: seq<Window>, e: WateringEvent) {
    exists v :: v in vs && InRange(s, v) && e == EventOf(s, v)
  }

  lemma FromWindowCons(s: seq<Sample>, v: Window, vs: seq<Window>, e: WateringEvent)
    requires InRange(s, v)
    ensures FromWindow(s, [v] + vs, e) <==> e == EventOf(s, v) || FromWindow(s, vs, e)
  {
    if e == EventOf(s, v) {
      assert v in [v] + vs;
    } else if FromWindow(s, vs, e) {
      var w :| w in vs && InRange(s, w) && e == EventOf(s, w);
      assert w in [v] + vs;
    }
  }

  /** The events are exactly those of the windows that reach the threshold. */
  lemma {:induction false} EventsComeFromWindows(s: seq<Sample>, i: nat, windowSec: real, threshold: real, e: WateringEvent)
    requires StrictlyTimed(s) && 1 <= i
    ensures e in EventsFrom(s, i, windowSec, threshold) <==>
      e.amount >= threshold && FromWindow(s, Windows(s, i, windowSec), e)
    decreases |s| - i
  {
    if i < |s| {
      if !Rises(s, i) {
        EventsComeFromWindows(s, i + 1, windowSec, threshold, e);
      } else {
        var stop := WindowStop(s, i + 1, s[i].t + windowSec);
        EventsComeFromWindows(s, stop, windowSec, threshold, e);
        FromWindowCons(s, Window(i, stop), Windows(s, stop, windowSec), e);
      }
    }
  }

  /** For distinct timestamps: the events are strictly ordered, and they are exactly the events of the
      windows that reach the threshold, each the latest maximum of the window opened by its rise. */
  lemma DetectedEvents(s: seq<Sample>, windowSec: real, threshold: real, e: WateringEvent)
    requires StrictlyTimed(s)
    ensures InOrder(EventsIn(s, windowSec, threshold))
    ensures e in EventsIn(s, windowSec, threshold) <==> e.amount >= threshold && FromWindow(s, Windows(s, 1, windowSec), e)
    ensures e in EventsIn(s, windowSec, threshold) ==> exists v :: v in Windows(s, 1, windowSec) && Describes(s, e, v, windowSec)
  {
    if s != [] { EventsAreInOrder(s, 1, windowSec, threshold); }
    EventsComeFromWindows(s, 1, windowSec, threshold, e);
    WindowsArePlaced(s, 1, windowSec);
    if e in EventsIn(s, windowSec, threshold) {
      var v :| v in Windows(s, 1, windowSec) && InRange(s, v) && e == EventOf(s, v);
      EventDescribesWindow(s, v, windowSec);
    }
  }

  lemma {:induction false} PositiveSamplesStay(s: seq<Sample>)
    requires Positive(s)
    ensures PositiveSamples(s) == s
  {
    if s != [] { PositiveSamplesStay(s[1..]); }
  }

  /** Sorted positive samples are scanned as they are. */
  lemma DetectInSorted(s: seq<Sample>, windowSec: real, threshold: real, maxAmount: real)
    requires Positive(s) && Sorted(s) && windowSec > 0.0 && maxAmount > threshold
    ensures Detect(s, windowSec, threshold, maxAmount) == Detected(EventsIn(s, windowSec, threshold))
  {
    PositiveSamplesStay(s);
    SortFixesSorted(s);
  }

  predicate DistinctTimes(s: seq<Sample>) {
    forall i, j :: 0 <= i < j < |s| ==> s[i].t != s[j].t
  }

  lemma {:induction false} PositiveSamplesStayDistinct(s: seq<Sample>)
    requires DistinctTimes(s)
    ensures DistinctTimes(PositiveSamples(s))
  {
    if s != [] {
      PositiveSamplesStayDistinct(s[1..]);
      var rest := PositiveSamples(s[1..]);
      assert forall k :: 0 <= k < |rest| ==> rest[k] in s[1..];
    }
  }

  lemma SameMembers(a: seq<Sample>, b: seq<Sample>)
    requires multiset(a) == multiset(b)
    ensures forall y :: y in a <==> y in b
  {
    assert forall y :: y in a <==> y in multiset(a);
    assert forall y :: y in b <==> y in multiset(b);
  }

  lemma TimedCons(x: Sample, s: seq<Sample>)
    requires StrictlyTimed(s) && forall y :: y in s ==> x.t < y.t
    ensures StrictlyTimed([x] + s)
  {
    assert forall k :: 0 <= k < |s| ==> s[k] in s;
  }

  lemma {:induction false} InsertStaysTimed(x: Sample, s: seq<Sample>)
    requires Sorted(s) && StrictlyTimed(s) && forall y :: y in s ==> y.t != x.t
    ensures StrictlyTimed(Insert(x, s))
  {
    if s == [] {
    } else if Before(x, s[0]) {
      TimedCons(x, s);
    } else {
      InsertStaysTimed(x, s[1..]);
      SameMembers(Insert(x, s[1..]), s[1..] + [x]);
      TimedCons(s[0], Insert(x, s[1..]));
    }
  }

  lemma {:induction false} SortMakesTimesStrict(s: seq<Sample>)
    requires DistinctTimes(s)
    ensures StrictlyTimed(SortSamples(s))
  {
    if s != [] {
      SortMakesTimesStrict(s[1..]);
      SameMembers(SortSamples(s[1..]), s[1..]);
      InsertStaysTimed(s[0], SortSamples(s[1..]));
    }
  }

  /** For distinct timestamps, in whatever order the samples come. */
  lemma DetectionsAreInOrder(samples: seq<Sample>, windowSec: real, threshold: real, maxAmount: real)
    requires DistinctTimes(samples)
    ensures var d := Detect(samples, windowSec, threshold, maxAmount);
      d.Detected? ==> (InOrder(d.events) && forall e :: e in d.events ==> e.amount >= threshold)
  {
    var s := SortSamples(PositiveSamples(samples));
    PositiveSamplesStayDistinct(samples);
    SortMakesTimesStrict(PositiveSamples(samples));
    var es := EventsIn(s, windowSec, threshold);
    forall e
      ensures InOrder(es) && (e in es ==> e.amount >= threshold)
    {
      DetectedEvents(s, windowSec, threshold, e);
    }
  }
}
