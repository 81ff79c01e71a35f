/** When scans of different ranges find the same waterings: a range may be cut wherever the scale has been
    quiet for the length of a detection window. */
module ScanRanges {
  import opened Samples
  import opened WateringDetection
  import opened EventStore
  import opened EventStoreTheorems
  import opened ScanConvergence

  /** The windows of all rises before sample `i` are over at sample `i`. */
  predicate Quiet(s: seq<Sample>, i: nat, windowSec: real) {
    1 <= i < |s| && forall k :: 1 <= k < i && Rises(s, k) ==> s[k].t + windowSec < s[i].t
  }

  function StopOf(s: seq<Sample>, j: nat, windowSec: real): (stop: nat)
    requires j < |s|
    ensures j < stop <= |s|
  {
    WindowStop(s, j + 1, s[j].t + windowSec)
  }

  function Kept(e: WateringEvent, threshold: real): seq<WateringEvent> {
    if e.amount >= threshold then [e] else []
  }

  /** What the scan finds at sample `j`, and the sample at which it goes on. */
  function FoundAt(s: seq<Sample>, j: nat, windowSec: real, threshold: real): seq<WateringEvent>
    requires 1 <= j < |s|
  {
    if Rises(s, j) then Kept(EventOf(s, Window(j, StopOf(s, j, windowSec))), threshold) else []
  }

  function NextAt(s: seq<Sample>, j: nat, windowSec: real): (n: nat)
    requires 1 <= j < |s|
    ensures j < n <= |s|
  {
    if Rises(s, j) then StopOf(s, j, windowSec) else j + 1
  }

  lemma ScanStep(s: seq<Sample>, j: nat, windowSec: real, threshold: real)
    requires 1 <= j < |s|
    ensures EventsFrom(s, j, windowSec, threshold) ==
      FoundAt(s, j, windowSec, threshold) + EventsFrom(s, NextAt(s, j, windowSec), windowSec, threshold)
  {
  }

  // ----- the samples before the cut -----

  lemma {:induction false} StopBefore(s: seq<Sample>, i: nat, k: nat, end: real)
    requires k <= i < |s| && s[i].t > end
    ensures WindowStop(s[..i], k, end) == WindowStop(s, k, end) <= i
    decreases i - k
  {
    if k < i { StopBefore(s, i, k + 1, end); }
  }

  lemma {:induction false} PeakBefore(s: seq<Sample>, i: nat, lo: nat, hi: nat)
    requires lo < hi <= i <= |s|
    ensures PeakOf(s[..i], lo, hi) == PeakOf(s, lo, hi)
  {
    if hi > lo + 1 { PeakBefore(s, i, lo, hi - 1); }
  }

  lemma StepBefore(s: seq<Sample>, a: seq<Sample>, i: nat, j: nat, windowSec: real, threshold: real)
    requires 1 <= j < i < |s| && a == s[..i] && (Rises(s, j) ==> s[j].t + windowSec < s[i].t)
    ensures NextAt(a, j, windowSec) == NextAt(s, j, windowSec) <= i
    ensures FoundAt(a, j, windowSec, threshold) == FoundAt(s, j, windowSec, threshold)
  {
    assert a[j] == s[j] && a[j - 1] == s[j - 1];
    if Rises(s, j) {
      StopBefore(s, i, j + 1, s[j].t + windowSec);
      PeakBefore(s, i, j, StopOf(s, j, windowSec));
    }
  }

  lemma Glue(whole: seq<WateringEvent>, head: seq<WateringEvent>, tail: seq<WateringEvent>,
             first: seq<WateringEvent>, wholeRest: seq<WateringEvent>, headRest: seq<WateringEvent>)
    requires whole == first + wholeRest && head == first + headRest && wholeRest == headRest + tail
    ensures whole == head + tail
  {
  }

  /** The scan comes by sample `i`, and finds before it what it finds without what follows. */
  lemma {:induction false} ScanPasses(s: seq<Sample>, a: seq<Sample>, j: nat, i: nat, windowSec: real, threshold: real)
    requires 1 <= j <= i && Quiet(s, i, windowSec) && a == s[..i]
    ensures EventsFrom(s, j, windowSec, threshold)
         == EventsFrom(a, j, windowSec, threshold) + EventsFrom(s, i, windowSec, threshold)
    decreases i - j
  {
    if j < i {
      var n := NextAt(s, j, windowSec);
      StepBefore(s, a, i, j, windowSec, threshold);
      ScanPasses(s, a, n, i, windowSec, threshold);
      ScanStep(s, j, windowSec, threshold);
      ScanStep(a, j, windowSec, threshold);
      Glue(EventsFrom(s, j, windowSec, threshold), EventsFrom(a, j, windowSec, threshold),
           EventsFrom(s, i, windowSec, threshold), FoundAt(s, j, windowSec, threshold),
           EventsFrom(s, n, windowSec, threshold), EventsFrom(a, n, windowSec, threshold));
    }
  }

  // ----- the samples from the cut on -----

  lemma {:induction false} StopAfter(s: seq<Sample>, d: nat, k: nat, end: real)
    requires d <= k <= |s|
    ensures WindowStop(s[d..], k - d, end) == WindowStop(s, k, end) - d
    decreases |s| - k
  {
    if k < |s| { StopAfter(s, d, k + 1, end); }
  }

  lemma {:induction false} PeakAfter(s: seq<Sample>, d: nat, lo: nat, hi: nat)
    requires d <= lo < hi <= |s|
    ensures PeakOf(s[d..], lo - d, hi - d) == PeakOf(s, lo, hi) - d
  {
    if hi > lo + 1 { PeakAfter(s, d, lo, hi - 1); }
  }

  lemma StepAfter(s: seq<Sample>, b: seq<Sample>, d: nat, j: nat, k: nat, windowSec: real, threshold: real)
    requires d < j < |s| && b == s[d..] && j == k + d
    ensures NextAt(b, k, windowSec) + d == NextAt(s, j, windowSec)
    ensures FoundAt(b, k, windowSec, threshold) == FoundAt(s, j, windowSec, threshold)
  {
    assert b[k] == s[j] && b[k - 1] == s[j - 1];
    if Rises(s, j) {
      StopAfter(s, d, j + 1, s[j].t + windowSec);
      PeakAfter(s, d, j, StopOf(s, j, windowSec));
    }
  }

  lemma {:induction false} ScanShifts(s: seq<Sample>, b: seq<Sample>, d: nat, j: nat, k: nat, windowSec: real, threshold: real)
    requires d < j <= |s| && b == s[d..] && j == k + d
    ensures EventsFrom(b, k, windowSec, threshold) == EventsFrom(s, j, windowSec, threshold)
    decreases |s| - j
  {
    if j < |s| {
      StepAfter(s, b, d, j, k, windowSec, threshold);
      ScanShifts(s, b, d, NextAt(s, j, windowSec), NextAt(b, k, windowSec), windowSec, threshold);
      ScanStep(s, j, windowSec, threshold);
      ScanStep(b, k, windowSec, threshold);
    }
  }

  // ----- both -----

  /** Cut at a quiet sample, the two parts give exactly the events of the whole; the part from there on also
      needs the sample before, for its weight. */
  lemma EventsSplitWhereQuiet(s: seq<Sample>, i: nat, windowSec: real, threshold: real)
    requires Quiet(s, i, windowSec)
    ensures EventsIn(s, windowSec, threshold)
         == EventsIn(s[..i], windowSec, threshold) + EventsIn(s[i - 1..], windowSec, threshold)
  {
    ScanPasses(s, s[..i], 1, i, windowSec, threshold);
    ScanShifts(s, s[i - 1..], i - 1, i, 1, windowSec, threshold);
  }

  /** So two ranges that are both cut at the same quiet sample find the same from there on, whatever each
      of them has before. */
  lemma RangesAgreeAfterQuiet(a: seq<Sample>, b: seq<Sample>, i: nat, j: nat, windowSec: real, threshold: real)
    requires Quiet(a, i, windowSec) && Quiet(b, j, windowSec) && a[i - 1..] == b[j - 1..]
    ensures exists common ::
      && EventsIn(a, windowSec, threshold) == EventsIn(a[..i], windowSec, threshold) + common
      && EventsIn(b, windowSec, threshold) == EventsIn(b[..j], windowSec, threshold) + common
  {
    EventsSplitWhereQuiet(a, i, windowSec, threshold);
    EventsSplitWhereQuiet(b, j, windowSec, threshold);
  }

  /** And a scan of such a part, after one of the whole, only cleans up. */
  lemma PartialRescanOnlyTidies(rows: seq<Row>, device: DeviceId, s: seq<Sample>, i: nat, windowSec: real, threshold: real,
                                maxAmount: real, times: seq<real>, part: seq<WateringEvent>, again: seq<real>)
    requires WellFormed(rows) && StrictlyTimed(s) && Quiet(s, i, windowSec)
    requires part == EventsIn(s[..i], windowSec, threshold) || part == EventsIn(s[i - 1..], windowSec, threshold)
    requires |times| == |EventsIn(s, windowSec, threshold)| + 2 && |again| == |part| + 2
    ensures var once := Scan(rows, device, EventsIn(s, windowSec, threshold), maxAmount, times);
      Scan(once, device, part, maxAmount, again) == Tidy(once, device, maxAmount, again[0], again[1])
  {
    var es := EventsIn(s, windowSec, threshold);
    EventsAreInOrder(s, 1, windowSec, threshold);
    EventsSplitWhereQuiet(s, i, windowSec, threshold);
    assert forall e :: e in part ==> e in es;
    PartOnlyTidies(rows, device, es, maxAmount, times, part, again);
  }

  lemma PartOnlyTidies(rows: seq<Row>, device: DeviceId, es: seq<WateringEvent>, maxAmount: real, times: seq<real>,
                       part: seq<WateringEvent>, again: seq<real>)
    requires WellFormed(rows) && InOrder(es) && forall e :: e in part ==> e in es
    requires |times| == |es| + 2 && |again| == |part| + 2
    ensures var once := Scan(rows, device, es, maxAmount, times);
      Scan(once, device, part, maxAmount, again) == Tidy(once, device, maxAmount, again[0], again[1])
  {
    var tidy, once := Tidy(rows, device, maxAmount, times[0], times[1]), Scan(rows, device, es, maxAmount, times);
    TidyKeeps(rows, device, maxAmount, times[0], times[1]);
    PassKeepsWellFormed(tidy, device, es, times[2..]);
    PassSatisfies(tidy, device, es, times[2..]);
    forall e | e in part
      ensures Satisfied(Tidy(once, device, maxAmount, again[0], again[1]), device, e)
    {
      TidyKeepsSatisfied(once, device, maxAmount, again[0], again[1], e);
    }
    TidyKeeps(once, device, maxAmount, again[0], again[1]);
    SatisfiedPassIsIdle(Tidy(once, device, maxAmount, again[0], again[1]), device, part, again[2..]);
  }
}
