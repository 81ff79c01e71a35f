/** Weight samples of one scale, as both the consumption estimator and its independent
    audit read them: unusable readings are discarded and the rest is sorted by time. */
module Samples {
  /** A number as Prometheus may deliver it: NaN and the infinities are not finite. */
  datatype Measured = Finite(value: real) | NonFinite

  datatype RawSample = RawSample(at: Measured, weight: Measured)

  datatype Sample = Sample(t: real, w: real)

  predicate Usable(raw: RawSample) {
    raw.at.Finite? && raw.weight.Finite? && raw.weight.value > 0.0
  }

  /** Tuple order: time first, weight second. */
  predicate Before(a: Sample, b: Sample) {
    a.t < b.t || (a.t == b.t && a.w <= b.w)
  }

  predicate Sorted(s: seq<Sample>) {
    forall i, j :: 0 <= i < j < |s| ==> Before(s[i], s[j])
  }

  predicate Positive(s: seq<Sample>) {
    forall i :: 0 <= i < |s| ==> s[i].w > 0.0
  }

  function UsableSamples(raw: seq<RawSample>): (s: seq<Sample>)
    ensures Positive(s)
    ensures forall x :: x in s <==> x.w > 0.0 && RawSample(Finite(x.t), Finite(x.w)) in raw
  {
    if raw == [] then []
    else
      var rest := UsableSamples(raw[1..]);
      if Usable(raw[0]) then [Sample(raw[0].at.value, raw[0].weight.value)] + rest else rest
  }

  predicate NoneBefore(x: Sample, s: seq<Sample>) {
    forall i :: 0 <= i < |s| ==> Before(x, s[i])
  }

  lemma SortedCons(x: Sample, s: seq<Sample>)
    requires Sorted(s) && NoneBefore(x, s)
    ensures Sorted([x] + s)
  {
  }

  lemma NoneBeforeInserted(y: Sample, x: Sample, s: seq<Sample>, r: seq<Sample>)
    requires multiset(r) == multiset(s) + multiset{x} && Before(y, x) && NoneBefore(y, s)
    ensures NoneBefore(y, r)
  {
    forall i | 0 <= i < |r|
      ensures Before(y, r[i])
    {
      assert r[i] in multiset(r);
      assert r[i] == x || r[i] in s;
    }
  }

  function Insert(x: Sample, s: seq<Sample>): (r: seq<Sample>)
    requires Sorted(s)
    ensures Sorted(r) && multiset(r) == multiset(s) + multiset{x}
  {
    if s == [] then [x]
    else if Before(x, s[0]) then
      assert NoneBefore(x, s);
      SortedCons(x, s);
      [x] + s
    else
      var tail := s[1..];
      assert s == [s[0]] + tail;
      var rest := Insert(x, tail);
      NoneBeforeInserted(s[0], x, tail, rest);
      SortedCons(s[0], rest);
      [s[0]] + rest
  }

  /** Python's `sorted`, on tuples. */
  function SortSamples(s: seq<Sample>): (r: seq<Sample>)
    ensures Sorted(r) && multiset(r) == multiset(s) && |r| == |s|
  {
    if s == [] then []
    else
      assert s == [s[0]] + s[1..];
      var r := Insert(s[0], SortSamples(s[1..]));
      assert |r| == |multiset(r)|;
      r
  }

  /** The samples the estimator works on. */
  function Ordered(raw: seq<RawSample>): (s: seq<Sample>)
    ensures Sorted(s) && Positive(s)
    ensures forall x :: x in s <==> x.w > 0.0 && RawSample(Finite(x.t), Finite(x.w)) in raw
  {
    var u := UsableSamples(raw);
    var s := SortSamples(u);
    assert forall x :: x in s <==> x in multiset(s);
    assert forall x :: x in u <==> x in multiset(u);
    s
  }

  function Reading(x: Sample): RawSample { RawSample(Finite(x.t), Finite(x.w)) }

  lemma {:induction false} UsableKeepsCounts(raw: seq<RawSample>, x: Sample)
    ensures multiset(UsableSamples(raw))[x] == if x.w > 0.0 then multiset(raw)[Reading(x)] else 0
  {
    if raw != [] {
      UsableKeepsCounts(raw[1..], x);
      assert raw == [raw[0]] + raw[1..];
      if Usable(raw[0]) {
        assert UsableSamples(raw) == [Sample(raw[0].at.value, raw[0].weight.value)] + UsableSamples(raw[1..]);
      }
    }
  }

  /** The list is sorted and holds every usable reading as often as it was read, and nothing else. */
  lemma OrderedKeepsEveryReading(raw: seq<RawSample>, x: Sample)
    ensures Sorted(Ordered(raw))
    ensures multiset(Ordered(raw))[x] == if x.w > 0.0 then multiset(raw)[Reading(x)] else 0
  {
    UsableKeepsCounts(raw, x);
  }

  function AsRaw(s: seq<Sample>): (raw: seq<RawSample>)
    ensures |raw| == |s|
  {
    seq(|s|, i requires 0 <= i < |s| => RawSample(Finite(s[i].t), Finite(s[i].w)))
  }

  lemma {:induction false} UsableOfRaw(s: seq<Sample>)
    requires Positive(s)
    ensures UsableSamples(AsRaw(s)) == s
  {
    if s != [] {
      var raw := AsRaw(s);
      assert raw[1..] == AsRaw(s[1..]);
      UsableOfRaw(s[1..]);
      assert UsableSamples(raw) == [s[0]] + s[1..] == s;
    }
  }

  lemma InsertFirst(x: Sample, s: seq<Sample>)
    requires Sorted(s) && (s == [] || Before(x, s[0]))
    ensures Insert(x, s) == [x] + s
  {
  }

  lemma {:induction false} SortFixesSorted(s: seq<Sample>)
    requires Sorted(s)
    ensures SortSamples(s) == s
  {
    if s != [] {
      var tail := s[1..];
      SortFixesSorted(tail);
      InsertFirst(s[0], tail);
      assert s == [s[0]] + tail;
    }
  }

  /** Well-formed samples reach the estimator unchanged. */
  lemma OrderedOfRaw(s: seq<Sample>)
    requires Sorted(s) && Positive(s)
    ensures Ordered(AsRaw(s)) == s
  {
    UsableOfRaw(s);
    SortFixesSorted(s);
  }

  /** The order in which the readings arrive never matters. */
  lemma {:induction false} SortedUnique(a: seq<Sample>, b: seq<Sample>)
    requires Sorted(a) && Sorted(b) && multiset(a) == multiset(b)
    ensures a == b
  {
    assert |a| == |multiset(a)| == |multiset(b)| == |b|;
    if a != [] {
      SameFirst(a, b);
      RestOf(a);
      RestOf(b);
      SortedUnique(a[1..], b[1..]);
    }
  }

  lemma RestOf(s: seq<Sample>)
    requires s != []
    ensures s == [s[0]] + s[1..] && multiset(s[1..]) == multiset(s) - multiset{s[0]}
  {
    assert s == [s[0]] + s[1..];
  }

  lemma SameFirst(a: seq<Sample>, b: seq<Sample>)
    requires Sorted(a) && Sorted(b) && multiset(a) == multiset(b) && a != [] && b != []
    ensures a[0] == b[0]
  {
    assert a[0] in multiset(b) && b[0] in multiset(a);
    assert a[0] in b && b[0] in a;
  }
}
