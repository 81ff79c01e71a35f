/** The nearest stored measurement on either side of a time, found by widening the searched range. */
module NearestSample {
  import opened Numbers
  import opened Options
  import opened Samples

  const FIRST_RADIUS := 3600
  const WIDENING := 24

  /** `a` is nearer to the target than `b`, or as near and earlier. */
  predicate Nearer(a: Sample, b: Sample, target: real) {
    Abs(a.t - target) < Abs(b.t - target) || (Abs(a.t - target) == Abs(b.t - target) && a.t < b.t)
  }

  predicate InRange(x: Sample, start: real, end: real) { start <= x.t <= end }

  /** The stored measurements of a range, in the order in which the database returns them. */
  function WeightSamples(history: seq<Sample>, start: real, end: real): (r: seq<Sample>)
    ensures forall x :: x in r <==> x in history && InRange(x, start, end)
  {
    if history == [] then []
    else (if InRange(history[0], start, end) then [history[0]] else []) + WeightSamples(history[1..], start, end)
  }

  /** The first of the nearest samples. */
  function NearestOf(samples: seq<Sample>, target: real): (r: Sample)
    requires samples != []
    ensures r in samples && forall x :: x in samples ==> !Nearer(x, r, target)
  {
    if |samples| == 1 then samples[0]
    else
      var rest := NearestOf(samples[1..], target);
      assert forall x :: x in samples ==> x == samples[0] || x in samples[1..];
      if Nearer(rest, samples[0], target) then rest else samples[0]
  }

  /** `r` is what the whole history up to `now` has nearest to the target. */
  ghost predicate IsNearest(r: Option<Sample>, history: seq<Sample>, target: real, now: real) {
    match r
    case None => forall x :: x in history ==> !(0.0 <= x.t <= now)
    case Some(s) => s in history && 0.0 <= s.t <= now && forall x :: x in history && 0.0 <= x.t <= now ==>
      Abs(s.t - target) < Abs(x.t - target) || (Abs(s.t - target) == Abs(x.t - target) && s.t <= x.t)
  }

  /** What lies outside the searched range is farther away than anything inside it. */
  lemma OutsideIsFarther(x: Sample, y: Sample, target: real, now: real, radius: int)
    requires 0.0 <= target <= now && 0 < radius
    requires InRange(x, Max(0.0, target - radius as real), Min(now, target + radius as real))
    requires InRange(y, 0.0, now) && !InRange(y, Max(0.0, target - radius as real), Min(now, target + radius as real))
    ensures !Nearer(y, x, target)
  {
  }

  method WeightAt(history: seq<Sample>, target: real, now: real) returns (r: Option<Sample>)
    requires 0.0 <= target <= now
    ensures IsNearest(r, history, target, now)
  {
    var radius := FIRST_RADIUS;
    while true
      invariant FIRST_RADIUS <= radius
      decreases now.Floor + 1 - radius
    {
      var start := Max(0.0, target - radius as real);
      var end := Min(now, target + radius as real);
      var samples := WeightSamples(history, start, end);
      if samples != [] {
        var nearest := NearestOf(samples, target);
        forall y | y in history && InRange(y, 0.0, now)
          ensures !Nearer(y, nearest, target)
        {
          if y !in samples {
            OutsideIsFarther(nearest, y, target, now, radius);
          }
        }
        return Some(nearest);
      }
      if start == 0.0 && end == now {
        assert forall x :: x in history && InRange(x, 0.0, now) ==> x in samples;
        return None;
      }
      assert radius as real < now;
      radius := radius * WIDENING;
    }
  }

  /** Distinct timestamps leave one answer only. */
  lemma NearestIsUnique(a: Option<Sample>, b: Option<Sample>, history: seq<Sample>, target: real, now: real)
    requires forall x, y :: x in history && y in history && x.t == y.t ==> x == y
    requires IsNearest(a, history, target, now) && IsNearest(b, history, target, now)
    ensures a == b
  {
    if a.Some? && b.Some? {
      assert !Nearer(a.value, b.value, target) && !Nearer(b.value, a.value, target);
    }
  }
}
