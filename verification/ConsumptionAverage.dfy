/** The average-consumption estimator, as a function of the filtered samples, and what it guarantees.
    `AverageEstimator` runs the same computation with its mutable accumulators. */
module ConsumptionAverage {
  import opened Numbers
  import opened Options
  import opened Samples
  import opened TransientFilter
  import opened ConsumptionTypes

  const RATE_WINDOW_SEC := 3600.0
  const MAX_GAP_SEC := 3600.0
  const TOLERANCE := 0.000000001

  /** Python's `isclose` with both tolerances set to 1e-9. */
  predicate IsClose(a: real, b: real) {
    Abs(a - b) <= Max(TOLERANCE * Max(Abs(a), Abs(b)), TOLERANCE)
  }

  function Caption(reason: Reason): string {
    match reason
    case Gap => "Excluded: data gap over 1 hour"
    case PendingRise => "Excluded: weight increase awaiting confirmation"
    case AbruptDrop => "Time counted; abrupt weight loss excluded"
    case TransientRise => "Time counted; temporary weight increase ignored"
    case Rise => "Time counted; weight increase excluded"
    case RateLimit => "Excluded: rate above 25 g/h"
    case NoData => "Excluded: no measurements"
    case _ => "Counted"
  }

  function Labelled(startAt: real, endAt: real, included: bool, reason: Reason, change: real): Interval {
    Interval(startAt, endAt, included, reason, change, Caption(reason))
  }

  // ----- the lookahead -----

  datatype RiseKind = Persistent | Transient | Pending

  /** The lookahead of the rise at sample `i`, resumed at sample `j`. */
  function RiseFrom(s: seq<Sample>, i: nat, j: nat, baseline: real): RiseKind
    requires i < j <= |s|
    decreases |s| - j
  {
    if j == |s| then Pending
    else if
      || s[j].t - s[i].t > TRANSIENT_WINDOW_SEC
      || !(0.0 < s[j].t - s[j - 1].t <= MAX_FILTER_STEP_SEC)
      || s[j].w - baseline > TRANSIENT_MAX_G
    then Persistent
    else if -AllowedLoss(s[j].t - s[i].t) - RETURN_TOLERANCE_G <= s[j].w - baseline <= RETURN_TOLERANCE_G then Transient
    else if s[j].t - s[i].t >= TRANSIENT_WINDOW_SEC then Persistent
    else RiseFrom(s, i, j + 1, baseline)
  }

  function BaselineRiseKind(s: seq<Sample>, i: nat, baseline: real): RiseKind
    requires 1 <= i < |s|
  {
    if s[i].w - baseline > TRANSIENT_MAX_G || s[i].t - s[i - 1].t > MAX_FILTER_STEP_SEC then Persistent
    else RiseFrom(s, i, i + 1, baseline)
  }

  // ----- one step -----

  datatype Verdict = NoTime | DataGap | Unconfirmed | Abrupt | Drop | Level | TransientUp | PersistentUp

  /** What the step from sample `i - 1` to sample `i` is taken for, given the consumption baseline. */
  function Judge(s: seq<Sample>, i: nat, baseline: real): Verdict
    requires 1 <= i < |s|
  {
    var seconds := s[i].t - s[i - 1].t;
    var difference := s[i].w - baseline;
    if seconds <= 0.0 then NoTime
    else if seconds > MAX_GAP_SEC then DataGap
    else if difference > WEIGHT_INCREASE_RESET_G then
      match BaselineRiseKind(s, i, baseline)
      case Pending => Unconfirmed
      case Transient => TransientUp
      case Persistent => PersistentUp
    else
      var allowedDrop := MAX_RATE_G_PER_HOUR * Max(1.0, seconds / 3600.0);
      if difference < -allowedDrop && !IsClose(-difference, allowedDrop) then Abrupt
      else if difference < 0.0 then Drop
      else Level
  }

  /** Verdicts after which the old baseline is forgotten. */
  predicate Resets(v: Verdict) { v.NoTime? || v.DataGap? || v.Abrupt? || v.PersistentUp? }

  /** The consumption baseline once sample `i` has been taken in. */
  function BaselineAt(s: seq<Sample>, i: nat): real
    requires i < |s|
  {
    if i == 0 then s[0].w
    else
      var v := Judge(s, i, BaselineAt(s, i - 1));
      if Resets(v) || v.Drop? then s[i].w else BaselineAt(s, i - 1)
  }

  function Kind(s: seq<Sample>, i: nat): Verdict
    requires 1 <= i < |s|
  {
    Judge(s, i, BaselineAt(s, i - 1))
  }

  /** The weight change booked for step `i`, before any hour is rejected. */
  function Booked(s: seq<Sample>, i: nat): real
    requires 1 <= i < |s|
  {
    if Kind(s, i).Drop? then s[i].w - BaselineAt(s, i - 1) else 0.0
  }

  function SumBooked(s: seq<Sample>, i: nat, j: nat): real
    requires i <= j < |s|
  {
    if i == j then 0.0 else SumBooked(s, i, j - 1) + Booked(s, j)
  }

  ghost predicate IsMinimum(s: seq<Sample>, i: nat, j: nat, m: real)
    requires i <= j < |s|
  {
    (forall k :: i <= k <= j ==> m <= s[k].w) && (exists k :: i <= k <= j && s[k].w == m)
  }

  /** Between two resets the baseline is the running minimum of the filtered weights, and the drops
      booked sum exactly to that minimum minus the starting weight: nothing is counted twice. */
  lemma {:induction false} BookedDropsReachTheMinimum(s: seq<Sample>, i: nat, j: nat)
    requires i <= j < |s|
    requires i == 0 || Resets(Kind(s, i))
    requires forall k :: i < k <= j ==> !Resets(Kind(s, k))
    ensures IsMinimum(s, i, j, BaselineAt(s, j))
    ensures SumBooked(s, i, j) == BaselineAt(s, j) - s[i].w
    decreases j - i
  {
    if i == j {
      assert BaselineAt(s, i) == s[i].w;
    } else {
      BookedDropsReachTheMinimum(s, i, j - 1);
      assert !Resets(Kind(s, j));
      var k :| i <= k <= j - 1 && s[k].w == BaselineAt(s, j - 1);
      if Kind(s, j).Drop? {
        assert s[j].w == BaselineAt(s, j);
      } else {
        assert s[k].w == BaselineAt(s, j);
      }
    }
  }

  // ----- hourly windows -----

  datatype Tally = Tally(
    hours: real, change: real, windowHours: real, windowChange: real,
    window: seq<Interval>, closed: seq<Interval>, filtered: nat)

  function Rejection(v: Interval): Interval { Labelled(v.startAt, v.endAt, false, RateLimit, 0.0) }

  function Rejected(window: seq<Interval>): (r: seq<Interval>)
    ensures |r| == |window|
  {
    seq(|window|, k requires 0 <= k < |window| => Rejection(window[k]))
  }

  predicate WithinLimit(windowHours: real, windowChange: real) {
    var allowed := MAX_RATE_G_PER_HOUR * windowHours;
    -windowChange <= allowed || IsClose(-windowChange, allowed)
  }

  function FinishWindow(t: Tally): Tally {
    if WithinLimit(t.windowHours, t.windowChange) then
      Tally(t.hours + t.windowHours, t.change + t.windowChange, 0.0, 0.0, [], t.closed + t.window, t.filtered)
    else
      Tally(t.hours, t.change, 0.0, 0.0, [], t.closed + Rejected(t.window), t.filtered)
  }

  predicate WindowFull(windowHours: real) { windowHours * 3600.0 >= RATE_WINDOW_SEC - TOLERANCE }

  function StepReason(v: Verdict): Reason {
    match v
    case Abrupt => AbruptDrop
    case TransientUp => TransientRise
    case PersistentUp => Rise
    case _ => Consumption
  }

  /** Step `i` is added to the open window, which closes when it holds an hour. */
  function Counted(s: seq<Sample>, i: nat, t: Tally): Tally
    requires 1 <= i < |s|
  {
    var v := Kind(s, i);
    t.(windowHours := t.windowHours + (s[i].t - s[i - 1].t) / 3600.0,
       windowChange := t.windowChange + Booked(s, i),
       window := t.window + [Labelled(s[i - 1].t, s[i].t, true, StepReason(v), Booked(s, i))],
       filtered := t.filtered + if v.TransientUp? then 1 else 0)
  }

  function Advance(s: seq<Sample>, i: nat, t: Tally): Tally
    requires 1 <= i < |s|
  {
    match Kind(s, i)
    case NoTime => FinishWindow(t)
    case DataGap =>
      var f := FinishWindow(t);
      f.(closed := f.closed + [Labelled(s[i - 1].t, s[i].t, false, Gap, 0.0)])
    case Unconfirmed => t
    case _ =>
      var c := Counted(s, i, t);
      if WindowFull(c.windowHours) then FinishWindow(c) else c
  }

  const EMPTY := Tally(0.0, 0.0, 0.0, 0.0, [], [], 0)

  /** The accumulators once samples `1..n` have been taken in. */
  function Walk(s: seq<Sample>, n: nat): Tally
    requires n < |s|
  {
    if n == 0 then EMPTY else Advance(s, n, Walk(s, n - 1))
  }

  /** The first step from `i` on that has to wait for later samples, or the number of samples. */
  function FirstUnconfirmed(s: seq<Sample>, i: nat): (n: nat)
    requires 1 <= i <= |s|
    ensures i <= n <= |s| && (n < |s| ==> Kind(s, n).Unconfirmed?)
    ensures forall k :: i <= k < n ==> !Kind(s, k).Unconfirmed?
    decreases |s| - i
  {
    if i == |s| || Kind(s, i).Unconfirmed? then i else FirstUnconfirmed(s, i + 1)
  }

  function LastTally(s: seq<Sample>): Tally
    requires s != []
  {
    var n := FirstUnconfirmed(s, 1);
    var f := FinishWindow(Walk(s, n - 1));
    if n == |s| then f
    else FinishWindow(f.(closed := f.closed + [Labelled(s[n - 1].t, s[|s| - 1].t, false, PendingRise, 0.0)]))
  }

  function AlteredCount(a: seq<Sample>, b: seq<Sample>): nat
    requires |a| == |b|
  {
    if a == [] then 0
    else
      var n := |a| - 1;
      AlteredCount(a[..n], b[..n]) + if a[n].w != b[n].w then 1 else 0
  }

  function Summary(t: Tally, altered: nat): Estimate {
    Estimate(t.hours * 3600.0, t.change, t.closed, if t.hours > 0.0 then Some(t.change / t.hours) else None,
             altered + t.filtered)
  }

  function EstimateOf(ordered: seq<Sample>): Estimate {
    if |ordered| < 2 then Estimate(0.0, 0.0, [], None, 0)
    else
      var filtered := Filtered(ordered);
      Summary(LastTally(filtered), AlteredCount(ordered, filtered))
  }

  /** The whole estimator: from the readings of a period to the rate and its audit trail. */
  function AverageConsumption(readings: seq<RawSample>): Estimate {
    EstimateOf(Ordered(readings))
  }
}
