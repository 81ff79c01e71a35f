/** The estimate of a whole day from the estimates of its day and its night. */
module Combination {
  import opened Options
  import opened Samples
  import opened ConsumptionTypes
  import opened ConsumptionAverage
  import opened ConsumptionAudit

  predicate HasRate(e: Estimate) { e.rate.Some? && e.countedSeconds > 0.0 }

  /** The time an estimate stands for: what it counted and the data gaps in between. */
  function Weight(e: Estimate): real { e.countedSeconds + Total(GapSeconds, e.intervals) }

  function WithRate(es: seq<Estimate>): (r: seq<Estimate>)
    ensures forall e :: e in r <==> e in es && HasRate(e)
  {
    if es == [] then [] else (if HasRate(es[0]) then [es[0]] else []) + WithRate(es[1..])
  }

  function Sum(f: Estimate -> real, es: seq<Estimate>): real {
    if es == [] then 0.0 else f(es[0]) + Sum(f, es[1..])
  }

  function Counted(e: Estimate): real { e.countedSeconds }
  function Grams(e: Estimate): real { e.change }
  function WeightedRate(e: Estimate): real { if e.rate.Some? then e.rate.value * Weight(e) else 0.0 }

  function AllIntervals(es: seq<Estimate>): seq<Interval> {
    if es == [] then [] else es[0].intervals + AllIntervals(es[1..])
  }

  function AllFiltered(es: seq<Estimate>): nat {
    if es == [] then 0 else es[0].filteredSamples + AllFiltered(es[1..])
  }

  function Combine(es: seq<Estimate>): Estimate {
    var usable := WithRate(es);
    var represented := Sum(Weight, usable);
    Estimate(Sum(Counted, usable), Sum(Grams, usable), AllIntervals(es),
             if represented > 0.0 then Some(Sum(WeightedRate, usable) / represented) else None,
             AllFiltered(es))
  }

  /** An estimate as the estimator delivers it, for samples somewhere between `a` and `b`. */
  ghost predicate Delivered(e: Estimate, a: real, b: real) {
    (e.intervals == [] && e.countedSeconds == 0.0 && e.change == 0.0 && e.rate.None?)
    || exists x, y :: a <= x <= y <= b && Audited(e, x, y)
  }

  lemma {:induction false} GapsAreNonNegative(vs: seq<Interval>, a: real, b: real)
    requires Chain(vs, a, b)
    ensures Total(GapSeconds, vs) >= 0.0
    decreases |vs|
  {
    if vs != [] { GapsAreNonNegative(vs[..|vs| - 1], a, vs[|vs| - 1].startAt); }
  }

  /** The part of the estimator's contract that the combination relies on. */
  predicate Balanced(e: Estimate) {
    && e.countedSeconds == Total(CountedSeconds, e.intervals) >= 0.0
    && e.change == Total(Change, e.intervals) <= 0.0
    && (!HasRate(e) ==> e.countedSeconds == 0.0 && e.change == 0.0)
    && Total(GapSeconds, e.intervals) >= 0.0
  }

  /** The rate is the counted grams over the counted time. */
  predicate RateMatches(e: Estimate) {
    e.rate.Some? ==> e.rate.value * e.countedSeconds == e.change * 3600.0
  }

  lemma DeliveredIsBalanced(e: Estimate, a: real, b: real)
    requires Delivered(e, a, b)
    ensures Balanced(e)
    ensures RateMatches(e)
  {
    if e.intervals != [] || e.rate.Some? || e.countedSeconds != 0.0 || e.change != 0.0 {
      var x, y :| a <= x <= y <= b && Audited(e, x, y);
      GapsAreNonNegative(e.intervals, x, y);
      if e.rate.Some? {
        assert e.rate.value * e.countedSeconds == 3600.0 * (e.rate.value * (e.countedSeconds / 3600.0));
      }
    }
  }

  lemma WeightedBounds(e: Estimate, lo: real, hi: real)
    requires HasRate(e) && Balanced(e) && lo <= e.rate.value <= hi
    ensures Weight(e) > 0.0 && lo * Weight(e) <= WeightedRate(e) <= hi * Weight(e)
  {
    assert (e.rate.value - lo) * Weight(e) >= 0.0;
    assert (hi - e.rate.value) * Weight(e) >= 0.0;
  }

  predicate RateWithin(e: Estimate, lo: real, hi: real) {
    HasRate(e) ==> lo <= e.rate.value <= hi
  }

  lemma {:induction false} SumWithinBounds(es: seq<Estimate>, lo: real, hi: real)
    requires forall e :: e in es ==> HasRate(e) && Balanced(e) && RateWithin(e, lo, hi)
    ensures lo * Sum(Weight, es) <= Sum(WeightedRate, es) <= hi * Sum(Weight, es)
    ensures if es == [] then Sum(Weight, es) == 0.0 else Sum(Weight, es) > 0.0
  {
    if es != [] {
      var e := es[0];
      assert e in es && RateWithin(e, lo, hi);
      WeightedBounds(e, lo, hi);
      SumWithinBounds(es[1..], lo, hi);
      Distribute(lo, Weight(e), Sum(Weight, es[1..]));
      Distribute(hi, Weight(e), Sum(Weight, es[1..]));
    }
  }

  lemma Distribute(k: real, x: real, y: real)
    ensures k * (x + y) == k * x + k * y
  {
  }

  lemma QuotientBounds(p: real, w: real, lo: real, hi: real)
    requires w > 0.0 && lo * w <= p <= hi * w
    ensures lo <= p / w <= hi
  {
    var q := p / w;
    assert q * w == p;
    assert (q - lo) * w == p - lo * w;
    assert (hi - q) * w == hi * w - p;
    NonNegativeFactor(q - lo, w);
    NonNegativeFactor(hi - q, w);
  }

  lemma NonNegativeFactor(f: real, w: real)
    requires w > 0.0 && f * w >= 0.0
    ensures f >= 0.0
  {
    assert f < 0.0 ==> f * w < 0.0;
  }

  /** The combined rate exists exactly when some period has one, and lies between the lowest and the
      highest of them: each period weighs by the time it stands for. */
  lemma CombinedRateIsAnAverage(es: seq<Estimate>, lo: real, hi: real)
    requires forall e :: e in es ==> Balanced(e)
    requires forall e :: e in es ==> RateWithin(e, lo, hi)
    ensures Combine(es).rate.Some? <==> exists e :: e in es && HasRate(e)
    ensures Combine(es).rate.Some? ==> lo <= Combine(es).rate.value <= hi
  {
    var usable := WithRate(es);
    SumWithinBounds(usable, lo, hi);
    if usable != [] {
      assert usable[0] in usable;
      QuotientBounds(Sum(WeightedRate, usable), Sum(Weight, usable), lo, hi);
    }
  }

  /** A period without a rate changes nothing but the list of intervals. */
  lemma {:induction false} PeriodWithoutRateIsIgnored(es: seq<Estimate>, missing: Estimate, fs: seq<Estimate>)
    requires !HasRate(missing)
    ensures WithRate(es + [missing] + fs) == WithRate(es + fs)
    ensures Combine(es + [missing] + fs).rate == Combine(es + fs).rate
    ensures Combine(es + [missing] + fs).countedSeconds == Combine(es + fs).countedSeconds
    ensures Combine(es + [missing] + fs).change == Combine(es + fs).change
    decreases |es|
  {
    if es == [] {
      assert ([missing] + fs)[1..] == fs && [] + [missing] + fs == [missing] + fs && [] + fs == fs;
    } else {
      PeriodWithoutRateIsIgnored(es[1..], missing, fs);
      assert (es + [missing] + fs)[1..] == es[1..] + [missing] + fs;
      assert (es + fs)[1..] == es[1..] + fs;
    }
  }

  /** Time and grams are conserved: what the combined result reports is what all its intervals say. */
  lemma {:induction false} CombinationConserves(es: seq<Estimate>)
    requires forall e :: e in es ==> Balanced(e)
    ensures Combine(es).countedSeconds == Total(CountedSeconds, Combine(es).intervals) >= 0.0
    ensures Combine(es).change == Total(Change, Combine(es).intervals) <= 0.0
  {
    if es != [] {
      var e := es[0];
      assert e in es;
      CombinationConserves(es[1..]);
      TotalAppend(CountedSeconds, e.intervals, AllIntervals(es[1..]));
      TotalAppend(Change, e.intervals, AllIntervals(es[1..]));
      SumOfUsable(es, Counted);
      SumOfUsable(es, Grams);
    }
  }

  lemma SumOfUsable(es: seq<Estimate>, f: Estimate -> real)
    requires es != [] && (!HasRate(es[0]) ==> f(es[0]) == 0.0)
    ensures Sum(f, WithRate(es)) == f(es[0]) + Sum(f, WithRate(es[1..]))
  {
    var rest := WithRate(es[1..]);
    if HasRate(es[0]) {
      assert WithRate(es) == [es[0]] + rest;
      assert WithRate(es)[1..] == rest;
    } else {
      assert WithRate(es) == rest;
    }
  }

  /** Without data gaps the combined rate is simply the grams over the hours. */
  lemma CombinedRateWithoutGaps(es: seq<Estimate>)
    requires forall e :: e in es ==> Balanced(e) && Total(GapSeconds, e.intervals) == 0.0
    requires forall e :: e in es ==> RateMatches(e)
    ensures Combine(es).rate.Some? ==> OverTime(Combine(es).rate.value, Combine(es).countedSeconds) == Combine(es).change
  {
    var usable := WithRate(es);
    SumsWithoutGaps(usable);
    var w := Sum(Weight, usable);
    if w > 0.0 {
      QuotientOverTime(Sum(WeightedRate, usable), Sum(Grams, usable), w);
    }
  }

  /** The grams that a rate per hour comes to. */
  function OverTime(rate: real, seconds: real): real { rate * (seconds / 3600.0) }

  lemma QuotientOverTime(weighted: real, grams: real, w: real)
    requires w > 0.0 && weighted == grams * 3600.0
    ensures OverTime(weighted / w, w) == grams
  {
    ScaledQuotient(grams, w);
  }

  lemma ScaledQuotient(grams: real, w: real)
    requires w > 0.0
    ensures grams * 3600.0 / w * (w / 3600.0) == grams
  {
    var q := grams * 3600.0 / w;
    assert q * w == grams * 3600.0;
    assert q * (w / 3600.0) == q * w / 3600.0;
  }

  lemma {:induction false} SumsWithoutGaps(es: seq<Estimate>)
    requires forall e :: e in es ==> HasRate(e) && Total(GapSeconds, e.intervals) == 0.0 && RateMatches(e)
    ensures Sum(Weight, es) == Sum(Counted, es) && Sum(WeightedRate, es) == Sum(Grams, es) * 3600.0
  {
    if es != [] {
      var e := es[0];
      assert e in es;
      assert RateMatches(e) && Weight(e) == e.countedSeconds && WeightedRate(e) == e.change * 3600.0;
      SumsWithoutGaps(es[1..]);
    }
  }

  /** Rejected hours and a pending rise: time that stays out of every figure. */
  function WithheldSeconds(v: Interval): real { if !v.included && v.reason != Gap then Seconds(v) else 0.0 }

  lemma {:induction false} SpanSplits(vs: seq<Interval>)
    ensures Total(Seconds, vs) == Total(CountedSeconds, vs) + Total(GapSeconds, vs) + Total(WithheldSeconds, vs)
    decreases |vs|
  {
    if vs != [] { SpanSplits(vs[..|vs| - 1]); }
  }

  /** A data gap does not lighten its period: an estimate weighs its whole span less what is withheld. */
  lemma WeightIsRepresentedTime(e: Estimate, a: real, b: real)
    requires Audited(e, a, b)
    ensures Weight(e) == b - a - Total(WithheldSeconds, e.intervals)
  {
    SpanSplits(e.intervals);
    ChainTiles(e.intervals, a, b);
  }

  lemma FullWeight(e: Estimate, a: real, b: real)
    requires Audited(e, a, b) && HasRate(e) && Total(WithheldSeconds, e.intervals) == 0.0
    ensures Weight(e) == b - a > 0.0
  {
    WeightIsRepresentedTime(e, a, b);
    GapsAreNonNegative(e.intervals, a, b);
  }

  /** Day and night weigh by the time they stand for, so that a hole in the data of one of them does
      not shift the combined rate towards the other. */
  lemma DayAndNight(day: Estimate, night: Estimate, a: real, b: real, c: real, d: real)
    requires Audited(day, a, b) && Audited(night, c, d) && HasRate(day) && HasRate(night)
    requires Total(WithheldSeconds, day.intervals) == 0.0 && Total(WithheldSeconds, night.intervals) == 0.0
    ensures a < b && c < d
    ensures Combine([day, night]).rate == Some(Mean(day.rate.value, b - a, night.rate.value, d - c))
  {
    assert Weight(day) == b - a > 0.0 by { FullWeight(day, a, b); }
    assert Weight(night) == d - c > 0.0 by { FullWeight(night, c, d); }
    CombineTwo(day, night);
  }

  function Mean(x: real, v: real, y: real, w: real): real
    requires v + w > 0.0
  {
    (x * v + y * w) / (v + w)
  }

  lemma CombineTwo(x: Estimate, y: Estimate)
    requires HasRate(x) && HasRate(y) && Weight(x) + Weight(y) > 0.0
    ensures Combine([x, y]).rate == Some(Mean(x.rate.value, Weight(x), y.rate.value, Weight(y)))
  {
    var es := [x, y];
    assert es[1..] == [y] && [y][1..] == [];
    assert WithRate([y]) == [y];
    assert WithRate(es) == [x] + [y] == es;
    SumOfTwo(Weight, x, y);
    SumOfTwo(WeightedRate, x, y);
    assert Sum(Weight, WithRate(es)) == Weight(x) + Weight(y);
    assert Sum(WeightedRate, WithRate(es)) == WeightedRate(x) + WeightedRate(y);
    assert Combine(es).rate == Some((WeightedRate(x) + WeightedRate(y)) / (Weight(x) + Weight(y)));
    assert x.rate.value * Weight(x) == WeightedRate(x) && y.rate.value * Weight(y) == WeightedRate(y);
    assert Mean(x.rate.value, Weight(x), y.rate.value, Weight(y)) ==
           (WeightedRate(x) + WeightedRate(y)) / (Weight(x) + Weight(y));
  }

  lemma SumOfTwo(f: Estimate -> real, x: Estimate, y: Estimate)
    ensures Sum(f, [x, y]) == f(x) + f(y)
  {
    assert [x, y][1..] == [y] && [y][1..] == [];
    assert Sum(f, [y]) == f(y);
  }

  /** What the estimator returns for any readings may be combined. */
  lemma EstimatesMayBeCombined(readings: seq<RawSample>)
    ensures Balanced(AverageConsumption(readings)) && RateMatches(AverageConsumption(readings))
  {
    EstimateIsAudited(readings);
    var s := Ordered(readings);
    if |s| >= 2 {
      assert Before(s[0], s[|s| - 1]);
      DeliveredIsBalanced(AverageConsumption(readings), s[0].t, s[|s| - 1].t);
    }
  }

  lemma {:induction false} ListsJoin(a: seq<Estimate>, b: seq<Estimate>)
    ensures AllFiltered(a + b) == AllFiltered(a) + AllFiltered(b)
    ensures AllIntervals(a + b) == AllIntervals(a) + AllIntervals(b)
  {
    if a == [] {
      assert a + b == b;
    } else {
      ListsJoin(a[1..], b);
      assert (a + b)[1..] == a[1..] + b && (a + b)[0] == a[0];
    }
  }

  lemma ListsOne(e: Estimate)
    ensures AllFiltered([e]) == e.filteredSamples && AllIntervals([e]) == e.intervals
  {
    assert [e][1..] == [];
  }

  /** Combining two groups of periods lists the intervals of both and adds up their filtered samples; alone, a
      period gives its own. */
  lemma FilteredAddUp(a: seq<Estimate>, b: seq<Estimate>, e: Estimate)
    ensures Combine(a + b).filteredSamples == Combine(a).filteredSamples + Combine(b).filteredSamples
    ensures Combine(a + b).intervals == Combine(a).intervals + Combine(b).intervals
    ensures Combine([e]).filteredSamples == e.filteredSamples && Combine([e]).intervals == e.intervals
  {
    ListsJoin(a, b);
    ListsOne(e);
  }
}
