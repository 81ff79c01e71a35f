/** The spike filter of the consumption estimator: a short excursion of the scale is replaced
    by a straight line, but only after the weight has come back to the earlier trend. */
module TransientFilter {
  import opened Numbers
  import opened Options
  import opened Samples

  const WEIGHT_INCREASE_RESET_G := 10.0
  const MAX_RATE_G_PER_HOUR := 25.0
  const MAX_FILTER_STEP_SEC := 60.0
  const TRANSIENT_WINDOW_SEC := 300.0
  const TRANSIENT_MAX_G := 30.0
  const RETURN_TOLERANCE_G := 2.0

  /** What a plant may lose in `seconds` at the highest accepted rate. */
  function AllowedLoss(seconds: real): real { MAX_RATE_G_PER_HOUR * seconds / 3600.0 }

  predicate Timed(s: seq<Sample>) {
    forall i, j :: 0 <= i < j < |s| ==> s[i].t <= s[j].t
  }

  /** Sample `i` jumps away from its predecessor, within one minute. */
  predicate Departs(before: Sample, current: Sample) {
    && 0.0 < current.t - before.t <= MAX_FILTER_STEP_SEC
    && WEIGHT_INCREASE_RESET_G < Abs(current.w - before.w) <= TRANSIENT_MAX_G
  }

  /** The search for a return, begun at sample `i`, must give up on reaching sample `j`. */
  predicate Blocked(s: seq<Sample>, i: nat, j: nat)
    requires i < j < |s|
  {
    s[j].t - s[i].t > TRANSIENT_WINDOW_SEC || !(0.0 < s[j].t - s[j - 1].t <= MAX_FILTER_STEP_SEC)
  }

  predicate Returns(before: Sample, end: Sample) {
    -AllowedLoss(end.t - before.t) - RETURN_TOLERANCE_G <= end.w - before.w <= RETURN_TOLERANCE_G
  }

  predicate TooFar(before: Sample, end: Sample) {
    Abs(end.w - before.w) > TRANSIENT_MAX_G + AllowedLoss(end.t - before.t)
  }

  /** The first sample from `j` on that confirms the return of the excursion begun at `i`. */
  function ReturnFrom(s: seq<Sample>, i: nat, j: nat): (r: Option<nat>)
    requires 1 <= i < j <= |s|
    ensures r.Some? ==> j <= r.value < |s|
    decreases |s| - j
  {
    if j == |s| || Blocked(s, i, j) then None
    else if Returns(s[i - 1], s[j]) then Some(j)
    else if TooFar(s[i - 1], s[j]) then None
    else ReturnFrom(s, i, j + 1)
  }

  /** The same search, said without a search order. */
  ghost predicate Confirms(s: seq<Sample>, i: nat, m: nat, j: nat)
    requires 1 <= i < m <= |s|
  {
    && m <= j < |s|
    && (forall k :: m <= k <= j ==> !Blocked(s, i, k))
    && (forall k :: m <= k < j ==> !Returns(s[i - 1], s[k]) && !TooFar(s[i - 1], s[k]))
    && Returns(s[i - 1], s[j])
  }

  lemma {:induction false} ReturnIsFirstConfirmation(s: seq<Sample>, i: nat, m: nat, j: nat)
    requires 1 <= i < m <= |s|
    ensures ReturnFrom(s, i, m) == Some(j) <==> Confirms(s, i, m, j)
    decreases |s| - m
  {
    if m < |s| {
      ReturnIsFirstConfirmation(s, i, m + 1, j);
      if m < j < |s| {
        assert Confirms(s, i, m, j) ==> !Blocked(s, i, m);
      }
    }
  }

  /** The weight at time `t` on the straight line through `a` and `b`. */
  function Line(a: Sample, b: Sample, t: real): real
    requires a.t < b.t
  {
    a.w + (t - a.t) / (b.t - a.t) * (b.w - a.w)
  }

  lemma Scaled(f: real, d: real)
    requires 0.0 <= f <= 1.0 && 0.0 <= d
    ensures 0.0 <= f * d <= d
  {
    assert 0.0 <= (1.0 - f) * d;
  }

  lemma Sign(f: real, y: real)
    requires 0.0 < y && 0.0 <= f * y
    ensures 0.0 <= f
  {
    assert f < 0.0 ==> f * y < 0.0;
  }

  lemma Fraction(x: real, y: real)
    requires 0.0 <= x <= y && 0.0 < y
    ensures 0.0 <= x / y <= 1.0
  {
    var f := x / y;
    assert f * y == x;
    Sign(f, y);
    assert (1.0 - f) * y == y - x;
    Sign(1.0 - f, y);
  }

  lemma LineBetween(a: Sample, b: Sample, t: real)
    requires a.t < b.t && a.t <= t <= b.t
    ensures a.w <= b.w ==> a.w <= Line(a, b, t) <= b.w
    ensures b.w <= a.w ==> b.w <= Line(a, b, t) <= a.w
  {
    var f := (t - a.t) / (b.t - a.t);
    Fraction(t - a.t, b.t - a.t);
    if a.w <= b.w {
      Scaled(f, b.w - a.w);
    } else {
      Scaled(f, a.w - b.w);
      assert f * (b.w - a.w) == -(f * (a.w - b.w));
    }
  }

  /** An excursion: it departs at sample `i` and is confirmed over at sample `j`. */
  predicate Excursion(s: seq<Sample>, i: nat, j: nat) {
    1 <= i < j < |s| && Departs(s[i - 1], s[i]) && ReturnFrom(s, i, i + 1) == Some(j)
  }

  /** All steps of an excursion are short and its ends lie at most six minutes apart. */
  lemma ExcursionIsShort(s: seq<Sample>, i: nat, j: nat)
    requires Excursion(s, i, j)
    ensures forall k :: i <= k <= j ==> 0.0 < s[k].t - s[k - 1].t <= MAX_FILTER_STEP_SEC
    ensures 0.0 < s[j].t - s[i - 1].t <= 360.0
    ensures forall k :: i <= k < j ==> s[i - 1].t < s[k].t < s[j].t
    ensures Returns(s[i - 1], s[j])
  {
    ReturnIsFirstConfirmation(s, i, i + 1, j);
    forall k | i <= k <= j
      ensures 0.0 < s[k].t - s[k - 1].t <= MAX_FILTER_STEP_SEC
    {
      assert k > i ==> !Blocked(s, i, k);
    }
    assert !Blocked(s, i, j);
    forall k | i <= k < j
      ensures s[i - 1].t < s[k].t < s[j].t
    {
      Increasing(s, i - 1, k);
      Increasing(s, k, j);
    }
    Increasing(s, i - 1, j);
  }

  /** Sample `m` is no missing minute away from the one before it, and within five minutes of sample `i`. */
  predicate InReach(s: seq<Sample>, i: nat, m: nat) {
    1 <= m < |s| && i < |s| && 0.0 < s[m].t - s[m - 1].t <= 60.0 && s[m].t - s[i].t <= 300.0
  }

  /** How far sample `m` lies above the trend before sample `i`. */
  function Above(s: seq<Sample>, i: nat, m: nat): real
    requires 1 <= i < |s| && m < |s|
  {
    s[m].w - s[i - 1].w
  }

  /** What a plant may have lost since the sample before `i`. */
  function MayHaveLost(s: seq<Sample>, i: nat, m: nat): real
    requires 1 <= i < |s| && m < |s|
  {
    25.0 * (s[m].t - s[i - 1].t) / 3600.0
  }

  predicate OnTrend(s: seq<Sample>, i: nat, m: nat)
    requires 1 <= i < |s| && m < |s|
  {
    -MayHaveLost(s, i, m) - 2.0 <= Above(s, i, m) <= 2.0
  }

  /** An excursion in plain figures: a jump of more than 10 and at most 30 g within a minute, and the first
      sample back on the trend, reached within five minutes without a missing minute and without a departure of
      more than 30 g plus loss. */
  lemma ExcursionExactlyWhen(s: seq<Sample>, i: nat, j: nat)
    ensures Excursion(s, i, j) <==>
      && 1 <= i < j < |s| && 0.0 < s[i].t - s[i - 1].t <= 60.0
      && (10.0 < Above(s, i, i) <= 30.0 || -30.0 <= Above(s, i, i) < -10.0)
      && (forall m :: i < m <= j ==> InReach(s, i, m))
      && (forall m :: i < m < j ==>
            !OnTrend(s, i, m) && -30.0 - MayHaveLost(s, i, m) <= Above(s, i, m) <= 30.0 + MayHaveLost(s, i, m))
      && OnTrend(s, i, j)
  {
    if 1 <= i < j < |s| {
      ReturnIsFirstConfirmation(s, i, i + 1, j);
      forall m | i < m <= j
        ensures InReach(s, i, m) <==> !Blocked(s, i, m)
        ensures OnTrend(s, i, m) <==> Returns(s[i - 1], s[m])
      {
      }
    }
  }

  lemma {:induction false} Increasing(s: seq<Sample>, a: nat, b: nat)
    requires a < b < |s|
    requires forall k :: a < k <= b ==> s[k - 1].t < s[k].t
    ensures s[a].t < s[b].t
    decreases b - a
  {
    if a + 1 < b { Increasing(s, a, b - 1); }
  }

  /** Sample `k` moved onto the line joining samples `i - 1` and `j`. */
  function Moved(s: seq<Sample>, i: nat, j: nat, k: nat): Sample
    requires 1 <= i <= k < j < |s| && s[i - 1].t < s[j].t
  {
    Sample(s[k].t, Line(s[i - 1], s[j], s[k].t))
  }

  /** Samples `k..j` moved onto the line joining samples `i - 1` and `j`. */
  function Straightened(s: seq<Sample>, i: nat, j: nat, k: nat): (r: seq<Sample>)
    requires 1 <= i <= k <= j < |s| && s[i - 1].t < s[j].t
    ensures |r| == j - k
    decreases j - k
  {
    if k == j then [] else [Moved(s, i, j, k)] + Straightened(s, i, j, k + 1)
  }

  lemma {:induction false} StraightenedAt(s: seq<Sample>, i: nat, j: nat, from: nat, k: nat)
    requires 1 <= i <= from <= k < j < |s| && s[i - 1].t < s[j].t
    ensures Straightened(s, i, j, from)[k - from] == Moved(s, i, j, k)
    decreases k - from
  {
    if from < k { StraightenedAt(s, i, j, from + 1, k); }
  }

  /** What the filter makes of the samples from `i` on, when sample `i - 1` was left alone. */
  function FilteredFrom(s: seq<Sample>, i: nat): (r: seq<Sample>)
    requires 1 <= i <= |s|
    ensures |r| == |s| - i
    decreases |s| - i
  {
    if i >= |s| - 1 then s[i..]
    else if Departs(s[i - 1], s[i]) && ReturnFrom(s, i, i + 1).Some? then
      var j := ReturnFrom(s, i, i + 1).value;
      ExcursionIsShort(s, i, j);
      Straightened(s, i, j, i) + [s[j]] + FilteredFrom(s, j + 1)
    else [s[i]] + FilteredFrom(s, i + 1)
  }

  function Filtered(s: seq<Sample>): (r: seq<Sample>)
    ensures |r| == |s|
  {
    if s == [] then [] else [s[0]] + FilteredFrom(s, 1)
  }

  /** `work` is finished before `index` and still a plain copy from there on. */
  ghost predicate Progress(work: array<Sample>, ordered: seq<Sample>, goal: seq<Sample>, index: nat)
    requires |goal| == |ordered| == work.Length
    reads work
  {
    && (forall k :: 0 <= k < index && k < work.Length ==> work[k] == goal[k])
    && (forall k :: index <= k < work.Length ==> work[k] == ordered[k])
  }

  /** The innermost loop: overwrite an excursion that has returned. */
  method Straighten(work: array<Sample>, ordered: seq<Sample>, index: nat, stop: nat)
    requires 1 <= index < stop < |ordered| == work.Length && ordered[index - 1].t < ordered[stop].t
    modifies work
    ensures forall k :: index <= k < stop ==> work[k] == Moved(ordered, index, stop, k)
    ensures forall k :: 0 <= k < work.Length && !(index <= k < stop) ==> work[k] == old(work[k])
  {
    var before, end := ordered[index - 1], ordered[stop];
    for offset := index to stop
      invariant forall k :: index <= k < offset ==> work[k] == Moved(ordered, index, stop, k)
      invariant forall k :: 0 <= k < work.Length && !(index <= k < offset) ==> work[k] == old(work[k])
    {
      var at := ordered[offset].t;
      var fraction := (at - before.t) / (end.t - before.t);
      work[offset] := Sample(at, before.w + fraction * (end.w - before.w));
    }
  }

  /** The lookahead loop: where, if anywhere, the excursion begun at `index` is over. */
  method FindReturn(ordered: seq<Sample>, index: nat, before: Sample) returns (found: Option<nat>)
    requires 1 <= index < |ordered| && before == ordered[index - 1]
    ensures found == ReturnFrom(ordered, index, index + 1)
  {
    var timestamp := ordered[index].t;
    var stop := index + 1;
    while stop < |ordered|
      invariant index < stop <= |ordered|
      invariant ReturnFrom(ordered, index, stop) == ReturnFrom(ordered, index, index + 1)
    {
      var end := ordered[stop];
      if end.t - timestamp > TRANSIENT_WINDOW_SEC
         || !(0.0 < end.t - ordered[stop - 1].t <= MAX_FILTER_STEP_SEC) {
        return None;
      }
      var allowedLoss := MAX_RATE_G_PER_HOUR * (end.t - before.t) / 3600.0;
      if -allowedLoss - RETURN_TOLERANCE_G <= end.w - before.w <= RETURN_TOLERANCE_G {
        return Some(stop);
      }
      if Abs(end.w - before.w) > TRANSIENT_MAX_G + allowedLoss {
        return None;
      }
      stop := stop + 1;
    }
    return None;
  }

  /** The filter's outer loop: one excursion at a time is overwritten in place. */
  method Sweep(filtered: array<Sample>, ordered: seq<Sample>, ghost goal: seq<Sample>)
    requires |goal| == |ordered| == filtered.Length > 0 && filtered[..] == ordered
    requires Planned(ordered, goal, 1)
    modifies filtered
    ensures filtered[..] == goal
  {
    var index := 1;
    while index < |ordered| - 1
      invariant 1 <= index <= |ordered|
      invariant Planned(ordered, goal, index)
      invariant Progress(filtered, ordered, goal, index)
    {
      var before := filtered[index - 1];
      var stop := None;
      if Departs(before, ordered[index]) {
        stop := FindReturn(ordered, index, before);
      }
      if stop.Some? {
        Straighten(filtered, ordered, index, stop.value);
        index := stop.value;
      }
      index := index + 1;
    }
  }

  method FilterTransientWeights(ordered: seq<Sample>) returns (filtered: seq<Sample>)
    ensures filtered == Filtered(ordered)
  {
    var n := |ordered|;
    var work := new Sample[n](i requires 0 <= i < n => ordered[i]);
    if n > 0 {
      FilteredIsPlanned(ordered, Filtered(ordered), 1);
      Sweep(work, ordered, Filtered(ordered));
    }
    filtered := work[..];
  }

  /** Between the kept samples `i - 1` and `j` of the excursion, `f` follows their straight line. */
  ghost predicate Smoothed(s: seq<Sample>, f: seq<Sample>, i: nat, j: nat)
    requires |f| == |s|
  {
    && Excursion(s, i, j) && s[i - 1].t < s[j].t
    && f[i - 1] == s[i - 1] && f[j] == s[j]
    && forall k :: i <= k < j ==> f[k] == Moved(s, i, j, k)
  }

  /** `g` is, from sample `i` on, what the scan of the filter leaves behind. */
  ghost predicate Planned(s: seq<Sample>, g: seq<Sample>, i: nat)
    requires |g| == |s| && 1 <= i <= |s|
    decreases |s| - i
  {
    && g[i - 1] == s[i - 1]
    && if i >= |s| - 1 then i == |s| - 1 ==> g[i] == s[i]
       else if Departs(s[i - 1], s[i]) && ReturnFrom(s, i, i + 1).Some? then
         var j := ReturnFrom(s, i, i + 1).value;
         Smoothed(s, g, i, j) && Planned(s, g, j + 1)
       else Planned(s, g, i + 1)
  }

  lemma FilteredAtExcursion(s: seq<Sample>, g: seq<Sample>, i: nat, j: nat)
    requires |g| == |s| && Excursion(s, i, j) && i < |s| - 1
    requires g[i - 1] == s[i - 1] && g[i..] == FilteredFrom(s, i)
    ensures Smoothed(s, g, i, j)
    ensures g[j + 1..] == FilteredFrom(s, j + 1)
  {
    ExcursionIsShort(s, i, j);
    var line := Straightened(s, i, j, i);
    var rest := FilteredFrom(s, j + 1);
    assert g[i..] == line + [s[j]] + rest;
    forall k | i <= k < j ensures g[k] == Moved(s, i, j, k) {
      assert g[k] == g[i..][k - i] == line[k - i];
      StraightenedAt(s, i, j, i, k);
    }
    assert g[j] == g[i..][j - i] == s[j];
    assert g[j + 1..] == g[i..][j - i + 1..] == rest;
  }

  lemma FilteredAtQuiet(s: seq<Sample>, g: seq<Sample>, i: nat)
    requires |g| == |s| && 1 <= i < |s| - 1 && !(Departs(s[i - 1], s[i]) && ReturnFrom(s, i, i + 1).Some?)
    requires g[i..] == FilteredFrom(s, i)
    ensures g[i] == s[i] && g[i + 1..] == FilteredFrom(s, i + 1)
  {
    assert g[i] == g[i..][0];
    assert g[i + 1..] == g[i..][1..];
  }

  lemma {:induction false} FilteredIsPlanned(s: seq<Sample>, g: seq<Sample>, i: nat)
    requires |g| == |s| && 1 <= i <= |s|
    requires g[i - 1] == s[i - 1] && g[i..] == FilteredFrom(s, i)
    ensures Planned(s, g, i)
    decreases |s| - i
  {
    if i == |s| - 1 {
      assert g[i] == g[i..][0];
    } else if i < |s| - 1 && Departs(s[i - 1], s[i]) && ReturnFrom(s, i, i + 1).Some? {
      var j := ReturnFrom(s, i, i + 1).value;
      FilteredAtExcursion(s, g, i, j);
      FilteredIsPlanned(s, g, j + 1);
    } else if i < |s| {
      FilteredAtQuiet(s, g, i);
      FilteredIsPlanned(s, g, i + 1);
    }
  }

  lemma {:induction false} PlanIsUnique(s: seq<Sample>, g: seq<Sample>, h: seq<Sample>, i: nat)
    requires |g| == |h| == |s| && 1 <= i <= |s| && Planned(s, g, i) && Planned(s, h, i)
    ensures forall k :: i - 1 <= k < |s| ==> g[k] == h[k]
    decreases |s| - i
  {
    if i < |s| - 1 {
      if Departs(s[i - 1], s[i]) && ReturnFrom(s, i, i + 1).Some? {
        PlanIsUnique(s, g, h, ReturnFrom(s, i, i + 1).value + 1);
      } else {
        PlanIsUnique(s, g, h, i + 1);
      }
    }
  }

  /** The filter's output is the one list that follows the plan of the scan, step by step. */
  lemma PlannedExactlyWhenFiltered(s: seq<Sample>, g: seq<Sample>)
    requires s != [] && |g| == |s|
    ensures Planned(s, g, 1) <==> g == Filtered(s)
  {
    FilteredIsPlanned(s, Filtered(s), 1);
    if Planned(s, g, 1) {
      PlanIsUnique(s, Filtered(s), g, 1);
    }
  }

  /** Sample `k` is kept, or lies strictly inside a smoothed excursion; and an excursion that
      begins at `k` is smoothed, unless `k` already belongs to a smoothed one. */
  ghost predicate Explained(s: seq<Sample>, f: seq<Sample>, k: nat)
    requires |f| == |s| && k < |s|
  {
    && (f[k] == s[k] || exists i: nat, j: nat :: Smoothed(s, f, i, j) && i <= k < j)
    && ((exists j: nat :: k < |s| - 1 && Excursion(s, k, j)) ==> exists i: nat, j: nat :: Smoothed(s, f, i, j) && i <= k <= j)
  }

  lemma {:induction false} FilterExplained(s: seq<Sample>, f: seq<Sample>, lo: nat)
    requires 1 <= lo <= |s| == |f| && Planned(s, f, lo)
    ensures forall k :: lo <= k < |s| ==> Explained(s, f, k)
    decreases |s| - lo
  {
    if lo < |s| - 1 {
      if Departs(s[lo - 1], s[lo]) && ReturnFrom(s, lo, lo + 1).Some? {
        var j := ReturnFrom(s, lo, lo + 1).value;
        assert Smoothed(s, f, lo, j);
        FilterExplained(s, f, j + 1);
      } else {
        FilterExplained(s, f, lo + 1);
      }
    }
  }

  /** The filter in one statement: length, end points and time stamps stay, and every sample is
      either kept or moved onto the line between two kept samples at most six minutes apart. */
  lemma FilterOnlyStraightensExcursions(s: seq<Sample>)
    ensures |Filtered(s)| == |s|
    ensures s != [] ==> Filtered(s)[0] == s[0] && Filtered(s)[|s| - 1] == s[|s| - 1]
    ensures forall k :: 0 <= k < |s| ==> Filtered(s)[k].t == s[k].t
    ensures forall k :: 1 <= k < |s| ==> Explained(s, Filtered(s), k)
    ensures Timed(s) ==> Timed(Filtered(s))
  {
    if s != [] {
      var f := Filtered(s);
      FilteredIsPlanned(s, f, 1);
      FilterExplained(s, f, 1);
      forall k | 0 <= k < |s| ensures f[k].t == s[k].t && (k == |s| - 1 ==> f[k] == s[k]) {
        if 1 <= k && f[k] != s[k] {
          assert Explained(s, f, k);
          var i: nat, j: nat :| Smoothed(s, f, i, j) && i <= k < j;
        }
      }
    }
  }

  lemma FilterKeepsTimes(s: seq<Sample>)
    ensures s != [] ==> Filtered(s)[0] == s[0] && Filtered(s)[|s| - 1] == s[|s| - 1]
    ensures forall k :: 0 <= k < |s| ==> Filtered(s)[k].t == s[k].t
    ensures Timed(s) ==> Timed(Filtered(s))
  {
    FilterOnlyStraightensExcursions(s);
  }

  /** An altered weight lies between the weights of the two kept samples around it. */
  lemma FilterStaysInside(s: seq<Sample>, k: nat)
    requires k < |s| && Filtered(s)[k] != s[k]
    ensures exists i: nat, j: nat :: 1 <= i <= k < j < |s| && Smoothed(s, Filtered(s), i, j)
                        && s[j].t - s[i - 1].t <= 360.0
                        && (s[i - 1].w <= Filtered(s)[k].w <= s[j].w || s[j].w <= Filtered(s)[k].w <= s[i - 1].w)
  {
    var f := Filtered(s);
    FilteredIsPlanned(s, f, 1);
    FilterExplained(s, f, 1);
    assert Explained(s, f, k);
    var i: nat, j: nat :| Smoothed(s, f, i, j) && i <= k < j;
    SmoothedInside(s, f, i, j, k);
  }

  lemma SmoothedInside(s: seq<Sample>, f: seq<Sample>, i: nat, j: nat, k: nat)
    requires |f| == |s| && Smoothed(s, f, i, j) && i <= k < j
    ensures 1 <= i && s[j].t - s[i - 1].t <= 360.0
    ensures s[i - 1].w <= f[k].w <= s[j].w || s[j].w <= f[k].w <= s[i - 1].w
  {
    assert s[i - 1].t <= s[k].t <= s[j].t && s[j].t - s[i - 1].t <= 360.0 by { ExcursionIsShort(s, i, j); }
    LineBetween(s[i - 1], s[j], s[k].t);
  }

  lemma FilterKeepsPositive(s: seq<Sample>)
    requires Positive(s)
    ensures Positive(Filtered(s))
  {
    forall k | 0 <= k < |s| ensures Filtered(s)[k].w > 0.0 {
      if Filtered(s)[k] != s[k] { FilterStaysInside(s, k); }
    }
  }
}
