/** The result contract shared by the average estimator and its independent evaluator. */
module ConsumptionTypes {
  import opened Options

  datatype Reason = Consumption | Gap | PendingRise | AbruptDrop | TransientRise | Rise | RateLimit | NoData | Named(name: string)

  /** A stretch of time, the decision taken about it and the weight change booked for it. */
  datatype Interval = Interval(startAt: real, endAt: real, included: bool, reason: Reason, change: real, caption: string)

  datatype Estimate = Estimate(
    countedSeconds: real, change: real, intervals: seq<Interval>, rate: Option<real>, filteredSamples: nat)

  /** The mutable record of the audit trail; the estimator and the evaluator update it in place. */
  class ConsumptionInterval {
    var startAt: real
    var endAt: real
    var included: bool
    var reason: Reason
    var change: real
    var caption: string

    constructor (v: Interval)
      ensures Value() == v
    {
      startAt, endAt, included := v.startAt, v.endAt, v.included;
      reason, change, caption := v.reason, v.change, v.caption;
    }

    function Value(): Interval
      reads this
    {
      Interval(startAt, endAt, included, reason, change, caption)
    }
  }

  /** The estimator's result as its readers receive it. */
  class AverageConsumptionResult {
    var countedSeconds: real
    var change: real
    var intervals: seq<ConsumptionInterval>
    var rate: Option<real>
    var filteredSamples: nat

    constructor (countedSeconds: real, change: real, intervals: seq<ConsumptionInterval>, rate: Option<real>, filteredSamples: nat)
      ensures this.countedSeconds == countedSeconds && this.change == change && this.intervals == intervals
      ensures this.rate == rate && this.filteredSamples == filteredSamples
    {
      this.countedSeconds, this.change, this.intervals := countedSeconds, change, intervals;
      this.rate, this.filteredSamples := rate, filteredSamples;
    }

    ghost function Value(): Estimate
      reads this, intervals
    {
      Estimate(countedSeconds, change, Values(intervals), rate, filteredSamples)
    }
  }

  function Values(cells: seq<ConsumptionInterval>): (r: seq<Interval>)
    reads cells
    ensures |r| == |cells|
    ensures forall k :: 0 <= k < |cells| ==> r[k] == cells[k].Value()
  {
    seq(|cells|, k requires 0 <= k < |cells| reads cells => cells[k].Value())
  }

  ghost predicate Distinct(cells: seq<ConsumptionInterval>) {
    forall i, j :: 0 <= i < j < |cells| ==> cells[i] != cells[j]
  }

  function Seconds(v: Interval): real { v.endAt - v.startAt }
  function CountedSeconds(v: Interval): real { if v.included then Seconds(v) else 0.0 }
  function Change(v: Interval): real { v.change }
  function GapSeconds(v: Interval): real { if !v.included && v.reason == Gap then Seconds(v) else 0.0 }

  function Total(f: Interval -> real, vs: seq<Interval>): real {
    if vs == [] then 0.0 else Total(f, vs[..|vs| - 1]) + f(vs[|vs| - 1])
  }

  lemma {:induction false} TotalAppend(f: Interval -> real, a: seq<Interval>, b: seq<Interval>)
    ensures Total(f, a + b) == Total(f, a) + Total(f, b)
    decreases |b|
  {
    if b == [] {
      assert a + b == a;
    } else {
      var n := |b| - 1;
      TotalAppend(f, a, b[..n]);
      assert (a + b)[..|a| + n] == a + b[..n];
    }
  }

  lemma TotalOne(f: Interval -> real, v: Interval)
    ensures Total(f, [v]) == f(v)
  {
    assert [v][..0] == [];
  }

  /** The intervals follow one another without a hole, have positive length, and together run from `a` to `b`. */
  predicate Chain(vs: seq<Interval>, a: real, b: real) {
    if vs == [] then a == b
    else
      var last := vs[|vs| - 1];
      last.startAt < last.endAt && last.endAt == b && Chain(vs[..|vs| - 1], a, last.startAt)
  }

  lemma ChainSnoc(vs: seq<Interval>, a: real, v: Interval)
    requires Chain(vs, a, v.startAt) && v.startAt < v.endAt
    ensures Chain(vs + [v], a, v.endAt)
  {
    assert (vs + [v])[..|vs|] == vs;
  }

  lemma {:induction false} ChainSameBounds(vs: seq<Interval>, ws: seq<Interval>, a: real, b: real)
    requires Chain(vs, a, b) && |vs| == |ws|
    requires forall k :: 0 <= k < |vs| ==> vs[k].startAt == ws[k].startAt && vs[k].endAt == ws[k].endAt
    ensures Chain(ws, a, b)
    decreases |vs|
  {
    if vs != [] {
      var n := |vs| - 1;
      ChainSameBounds(vs[..n], ws[..n], a, vs[n].startAt);
    }
  }

  /** A chain leaves no hole and counts no second twice. */
  lemma {:induction false} ChainTiles(vs: seq<Interval>, a: real, b: real)
    requires Chain(vs, a, b)
    ensures a <= b && (vs == [] ==> a == b) && (vs != [] ==> vs[0].startAt == a && vs[|vs| - 1].endAt == b)
    ensures Total(Seconds, vs) == b - a
    ensures forall k :: 0 <= k < |vs| ==> a <= vs[k].startAt < vs[k].endAt <= b
    ensures forall k :: 0 <= k < |vs| - 1 ==> vs[k].endAt == vs[k + 1].startAt
    decreases |vs|
  {
    if vs != [] {
      var n := |vs| - 1;
      ChainTiles(vs[..n], a, vs[n].startAt);
      assert n > 0 ==> vs[n - 1] == vs[..n][n - 1] && vs[0] == vs[..n][0];
      forall k | 0 <= k < n ensures a <= vs[k].startAt < vs[k].endAt <= b {
        assert vs[k] == vs[..n][k];
      }
      forall k | 0 <= k < n ensures vs[k].endAt == vs[k + 1].startAt {
        assert vs[k] == vs[..n][k];
        if k < n - 1 { assert vs[k + 1] == vs[..n][k + 1]; }
      }
    }
  }
}
