/** The diagnostic timeline: the intervals of a result, sorted, merged and completed with the times
    without data, as a function of their values. */
module Timeline {
  import opened ConsumptionTypes
  import opened ConsumptionAverage

  /** Neighbours that tell the same story. */
  predicate SameStory(v: Interval, w: Interval) {
    v.included == w.included && v.reason == w.reason && v.caption == w.caption
  }

  predicate Joins(v: Interval, w: Interval) { v.endAt == w.startAt && SameStory(v, w) }

  function Append(vs: seq<Interval>, v: Interval): seq<Interval> {
    if v.endAt <= v.startAt then vs
    else if vs != [] && Joins(vs[|vs| - 1], v) then
      var last := vs[|vs| - 1];
      vs[..|vs| - 1] + [last.(endAt := v.endAt, change := last.change + v.change)]
    else vs + [v]
  }

  function Absent(a: real, b: real): Interval { Labelled(a, b, false, NoData, 0.0) }

  /** An interval is laid down after the hole that may precede it. */
  function Lay(vs: seq<Interval>, cursor: real, v: Interval): seq<Interval> {
    Append(if v.startAt > cursor then Append(vs, Absent(cursor, v.startAt)) else vs, v)
  }

  function CursorAfter(start: real, vs: seq<Interval>): real {
    if vs == [] then start else vs[|vs| - 1].endAt
  }

  /** What is laid down of sorted intervals, from `start` on. */
  function Laid(start: real, vs: seq<Interval>): seq<Interval> {
    if vs == [] then []
    else
      var n := |vs| - 1;
      Lay(Laid(start, vs[..n]), CursorAfter(start, vs[..n]), vs[n])
  }

  function InsertByStart(v: Interval, vs: seq<Interval>): (r: seq<Interval>)
    ensures multiset(r) == multiset(vs) + multiset{v}
  {
    if vs == [] || v.startAt <= vs[0].startAt then [v] + vs
    else
      assert vs == [vs[0]] + vs[1..];
      [vs[0]] + InsertByStart(v, vs[1..])
  }

  /** Python's stable `sorted` with the start as key. */
  function SortByStart(vs: seq<Interval>): (r: seq<Interval>)
    ensures multiset(r) == multiset(vs)
  {
    if vs == [] then []
    else
      assert vs == [vs[0]] + vs[1..];
      InsertByStart(vs[0], SortByStart(vs[1..]))
  }

  function Completed(start: real, end: real, sorted: seq<Interval>): seq<Interval> {
    var laid := Laid(start, sorted);
    var cursor := CursorAfter(start, sorted);
    if cursor < end then Append(laid, Absent(cursor, end)) else laid
  }

  function TimelineOf(start: real, end: real, vs: seq<Interval>): seq<Interval> {
    Completed(start, end, SortByStart(vs))
  }

  // ----- sorting -----

  predicate Apart(v: Interval, w: Interval) { v.endAt <= w.startAt || w.endAt <= v.startAt }

  /** No two of the intervals overlap. */
  predicate Separate(vs: seq<Interval>) {
    vs == [] || ((forall w :: w in vs[1..] ==> Apart(vs[0], w)) && Separate(vs[1..]))
  }

  predicate Inside(vs: seq<Interval>, a: real, b: real) {
    forall v :: v in vs ==> a <= v.startAt < v.endAt <= b
  }

  predicate ByStart(vs: seq<Interval>) {
    vs == [] || ((forall w :: w in vs[1..] ==> vs[0].startAt <= w.startAt) && ByStart(vs[1..]))
  }

  lemma SameElements(vs: seq<Interval>, ws: seq<Interval>)
    requires multiset(vs) == multiset(ws)
    ensures forall v :: v in vs <==> v in ws
  {
    assert forall v :: v in vs <==> v in multiset(vs);
    assert forall v :: v in ws <==> v in multiset(ws);
  }

  lemma InsertElements(v: Interval, vs: seq<Interval>)
    ensures forall w :: w in InsertByStart(v, vs) <==> w == v || w in vs
  {
    assert multiset([v] + vs) == multiset(vs) + multiset{v};
    SameElements(InsertByStart(v, vs), [v] + vs);
  }

  lemma {:induction false} InsertKeepsOrder(v: Interval, vs: seq<Interval>)
    requires ByStart(vs)
    ensures ByStart(InsertByStart(v, vs))
  {
    if vs != [] && v.startAt > vs[0].startAt {
      var rest := InsertByStart(v, vs[1..]);
      InsertKeepsOrder(v, vs[1..]);
      InsertElements(v, vs[1..]);
      assert ([vs[0]] + rest)[1..] == rest;
    } else {
      assert ([v] + vs)[1..] == vs;
    }
  }

  lemma {:induction false} InsertKeepsSeparate(v: Interval, vs: seq<Interval>)
    requires Separate(vs) && forall w :: w in vs ==> Apart(v, w)
    ensures Separate(InsertByStart(v, vs))
  {
    if vs != [] && v.startAt > vs[0].startAt {
      var rest := InsertByStart(v, vs[1..]);
      InsertKeepsSeparate(v, vs[1..]);
      assert vs[0] in vs && Apart(v, vs[0]);
      InsertElements(v, vs[1..]);
      assert ([vs[0]] + rest)[1..] == rest;
    } else {
      assert ([v] + vs)[1..] == vs;
    }
  }

  lemma {:induction false} SortKeepsSeparate(vs: seq<Interval>)
    ensures ByStart(SortByStart(vs)) && (Separate(vs) ==> Separate(SortByStart(vs)))
  {
    if vs != [] {
      SortKeepsSeparate(vs[1..]);
      SameElements(SortByStart(vs[1..]), vs[1..]);
      InsertKeepsOrder(vs[0], SortByStart(vs[1..]));
      if Separate(vs) { InsertKeepsSeparate(vs[0], SortByStart(vs[1..])); }
    }
  }

  lemma {:induction false} InsertKeepsTotal(f: Interval -> real, v: Interval, vs: seq<Interval>)
    ensures Total(f, InsertByStart(v, vs)) == f(v) + Total(f, vs)
  {
    TotalOne(f, v);
    if vs == [] || v.startAt <= vs[0].startAt {
      TotalAppend(f, [v], vs);
    } else {
      InsertKeepsTotal(f, v, vs[1..]);
      TotalOne(f, vs[0]);
      TotalAppend(f, [vs[0]], InsertByStart(v, vs[1..]));
      TotalAppend(f, [vs[0]], vs[1..]);
      assert vs == [vs[0]] + vs[1..];
    }
  }

  lemma {:induction false} SortKeepsTotal(f: Interval -> real, vs: seq<Interval>)
    ensures Total(f, SortByStart(vs)) == Total(f, vs)
  {
    if vs != [] {
      SortKeepsTotal(f, vs[1..]);
      InsertKeepsTotal(f, vs[0], SortByStart(vs[1..]));
      TotalOne(f, vs[0]);
      TotalAppend(f, [vs[0]], vs[1..]);
      assert vs == [vs[0]] + vs[1..];
    }
  }

  /** Sorted and separate intervals of positive length follow one another. */
  predicate Following(vs: seq<Interval>) {
    forall k :: 1 <= k < |vs| ==> vs[k - 1].endAt <= vs[k].startAt
  }

  lemma {:induction false} SortedSeparateFollow(vs: seq<Interval>, a: real, b: real)
    requires ByStart(vs) && Separate(vs) && Inside(vs, a, b)
    ensures Following(vs)
  {
    if |vs| > 1 {
      SortedSeparateFollow(vs[1..], a, b);
      assert vs[1] in vs[1..] && vs[1] in vs && vs[0] in vs;
      forall k | 1 <= k < |vs| ensures vs[k - 1].endAt <= vs[k].startAt {
        if k > 1 { assert vs[k] == vs[1..][k - 1] && vs[k - 1] == vs[1..][k - 2]; }
      }
    }
  }

  // ----- laying down -----

  /** No two neighbours share the same decision and label. */
  predicate NoTwins(vs: seq<Interval>) {
    forall k :: 1 <= k < |vs| ==> !SameStory(vs[k - 1], vs[k])
  }

  lemma AppendExtends(vs: seq<Interval>, a: real, v: Interval)
    requires Chain(vs, a, v.startAt) && NoTwins(vs) && v.startAt < v.endAt
    ensures Chain(Append(vs, v), a, v.endAt) && NoTwins(Append(vs, v))
    ensures Total(CountedSeconds, Append(vs, v)) == Total(CountedSeconds, vs) + CountedSeconds(v)
    ensures Total(Change, Append(vs, v)) == Total(Change, vs) + Change(v)
  {
    var n := |vs| - 1;
    if vs != [] && Joins(vs[n], v) {
      var merged := vs[n].(endAt := v.endAt, change := vs[n].change + v.change);
      assert (vs[..n] + [merged])[..n] == vs[..n];
    } else {
      assert (vs + [v])[..|vs|] == vs;
    }
  }

  /** `tl` covers the time from `a` to `b` once, without twins, and reports the figures of `vs`. */
  predicate Faithful(tl: seq<Interval>, a: real, b: real, vs: seq<Interval>) {
    && Chain(tl, a, b) && NoTwins(tl)
    && Total(CountedSeconds, tl) == Total(CountedSeconds, vs) && Total(Change, tl) == Total(Change, vs)
  }

  lemma HoleKeepsFaith(tl: seq<Interval>, a: real, b: real, vs: seq<Interval>, c: real)
    requires Faithful(tl, a, b, vs) && b < c
    ensures Faithful(Append(tl, Absent(b, c)), a, c, vs)
  {
    AppendExtends(tl, a, Absent(b, c));
  }

  lemma LayKeepsFaith(tl: seq<Interval>, a: real, b: real, vs: seq<Interval>, v: Interval)
    requires Faithful(tl, a, b, vs) && b <= v.startAt < v.endAt
    ensures Faithful(Lay(tl, b, v), a, v.endAt, vs + [v])
  {
    TotalAppend(CountedSeconds, vs, [v]);
    TotalAppend(Change, vs, [v]);
    TotalOne(CountedSeconds, v);
    TotalOne(Change, v);
    if b < v.startAt {
      HoleKeepsFaith(tl, a, b, vs, v.startAt);
      AppendExtends(Append(tl, Absent(b, v.startAt)), a, v);
    } else {
      AppendExtends(tl, a, v);
    }
  }

  lemma PrefixFollows(start: real, vs: seq<Interval>, end: real)
    requires vs != [] && Following(vs) && Inside(vs, start, end)
    ensures var n := |vs| - 1; Following(vs[..n]) && Inside(vs[..n], start, end)
    ensures var n := |vs| - 1; CursorAfter(start, vs[..n]) <= vs[n].startAt < vs[n].endAt
  {
    var n := |vs| - 1;
    assert vs[n] in vs;
    if n > 0 { assert vs[..n][n - 1] == vs[n - 1]; }
  }

  lemma {:induction false} LaidTiles(start: real, vs: seq<Interval>, end: real)
    requires Following(vs) && Inside(vs, start, end)
    ensures Faithful(Laid(start, vs), start, CursorAfter(start, vs), vs)
    decreases |vs|
  {
    if vs != [] {
      var n := |vs| - 1;
      var v, before := vs[n], vs[..n];
      PrefixFollows(start, vs, end);
      LaidTiles(start, before, end);
      LayKeepsFaith(Laid(start, before), start, CursorAfter(start, before), before, v);
      assert before + [v] == vs;
    }
  }

  lemma CursorInside(start: real, vs: seq<Interval>, end: real)
    requires Inside(vs, start, end) && start <= end
    ensures start <= CursorAfter(start, vs) <= end
  {
    if vs != [] { assert vs[|vs| - 1] in vs; }
  }

  lemma CompletedCovers(start: real, end: real, sorted: seq<Interval>)
    requires start <= end && Following(sorted) && Inside(sorted, start, end)
    ensures Faithful(Completed(start, end, sorted), start, end, sorted)
  {
    LaidTiles(start, sorted, end);
    CursorInside(start, sorted, end);
    var cursor := CursorAfter(start, sorted);
    if cursor < end {
      HoleKeepsFaith(Laid(start, sorted), start, cursor, sorted, end);
    }
  }

  /** For intervals that do not overlap and lie inside the period, in whatever order they come: the
      timeline covers the period exactly once, no two neighbours could be one, and the counted time
      and the grams are those of the intervals. */
  lemma TimelineCovers(start: real, end: real, vs: seq<Interval>)
    requires start <= end && Separate(vs) && Inside(vs, start, end)
    ensures Faithful(TimelineOf(start, end, vs), start, end, vs)
  {
    var sorted := SortByStart(vs);
    SortKeepsSeparate(vs);
    SameElements(sorted, vs);
    SortKeepsTotal(CountedSeconds, vs);
    SortKeepsTotal(Change, vs);
    SortedSeparateFollow(sorted, start, end);
    CompletedCovers(start, end, sorted);
  }

  // ----- what the timeline shows -----

  /** Some interval of the timeline contains `v` and tells its story. */
  predicate Shows(tl: seq<Interval>, v: Interval) {
    exists k :: 0 <= k < |tl| && tl[k].startAt <= v.startAt && v.endAt <= tl[k].endAt && SameStory(tl[k], v)
  }

  lemma AppendShows(tl: seq<Interval>, v: Interval)
    requires v.startAt < v.endAt && (tl != [] ==> tl[|tl| - 1].startAt < tl[|tl| - 1].endAt)
    ensures Shows(Append(tl, v), v)
    ensures forall w :: Shows(tl, w) ==> Shows(Append(tl, v), w)
    ensures Append(tl, v) != [] && Append(tl, v)[|Append(tl, v)| - 1].startAt < Append(tl, v)[|Append(tl, v)| - 1].endAt
  {
    var r := Append(tl, v);
    assert r[|r| - 1].startAt <= v.startAt && v.endAt <= r[|r| - 1].endAt && SameStory(r[|r| - 1], v);
    forall w | Shows(tl, w) ensures Shows(r, w) {
      var k :| 0 <= k < |tl| && tl[k].startAt <= w.startAt && w.endAt <= tl[k].endAt && SameStory(tl[k], w);
      assert r[k].startAt <= w.startAt && w.endAt <= r[k].endAt && SameStory(r[k], w);
    }
  }

  predicate AllShown(tl: seq<Interval>, vs: seq<Interval>) {
    forall v :: v in vs ==> Shows(tl, v)
  }

  /** The last interval of the timeline takes some time. */
  predicate LastTakesTime(tl: seq<Interval>) {
    tl != [] ==> tl[|tl| - 1].startAt < tl[|tl| - 1].endAt
  }

  lemma AppendKeepsShown(tl: seq<Interval>, v: Interval, vs: seq<Interval>)
    requires v.startAt < v.endAt && LastTakesTime(tl) && AllShown(tl, vs)
    ensures Shows(Append(tl, v), v) && AllShown(Append(tl, v), vs) && LastTakesTime(Append(tl, v))
  {
    AppendShows(tl, v);
  }

  lemma LayKeepsShown(tl: seq<Interval>, cursor: real, v: Interval, vs: seq<Interval>)
    requires v.startAt < v.endAt && LastTakesTime(tl) && AllShown(tl, vs)
    ensures AllShown(Lay(tl, cursor, v), vs + [v]) && LastTakesTime(Lay(tl, cursor, v))
  {
    if v.startAt > cursor {
      AppendKeepsShown(tl, Absent(cursor, v.startAt), vs);
      AppendKeepsShown(Append(tl, Absent(cursor, v.startAt)), v, vs);
    } else {
      AppendKeepsShown(tl, v, vs);
    }
  }

  lemma {:induction false} LaidShows(start: real, vs: seq<Interval>)
    requires forall v :: v in vs ==> v.startAt < v.endAt
    ensures AllShown(Laid(start, vs), vs) && LastTakesTime(Laid(start, vs))
    decreases |vs|
  {
    if vs != [] {
      var n := |vs| - 1;
      assert vs[n] in vs && vs == vs[..n] + [vs[n]];
      LaidShows(start, vs[..n]);
      LayKeepsShown(Laid(start, vs[..n]), CursorAfter(start, vs[..n]), vs[n], vs[..n]);
    }
  }

  /** Every interval of the result can be read off the timeline, with its own decision and label; and
      since the timeline is a chain, no instant is shown with any other. */
  lemma TimelineShowsEverything(start: real, end: real, vs: seq<Interval>)
    requires start <= end && Inside(vs, start, end)
    ensures forall v :: v in vs ==> Shows(TimelineOf(start, end, vs), v)
  {
    var sorted := SortByStart(vs);
    SameElements(sorted, vs);
    LaidShows(start, sorted);
    var cursor := CursorAfter(start, sorted);
    if cursor < end { AppendShows(Laid(start, sorted), Absent(cursor, end)); }
  }

  // ----- nothing else -----

  /** The interval tells that there are no measurements, or the story of a supplied one. */
  predicate Told(v: Interval, supplied: seq<Interval>) {
    (!v.included && v.reason == NoData) || exists w :: w in supplied && SameStory(v, w)
  }

  predicate AllTold(tl: seq<Interval>, supplied: seq<Interval>) {
    forall k :: 0 <= k < |tl| ==> Told(tl[k], supplied)
  }

  lemma AppendTells(tl: seq<Interval>, v: Interval, supplied: seq<Interval>)
    requires AllTold(tl, supplied) && Told(v, supplied)
    ensures AllTold(Append(tl, v), supplied)
  {
    var n := |tl| - 1;
    if v.startAt < v.endAt && tl != [] && Joins(tl[n], v) {
      var merged := tl[n].(endAt := v.endAt, change := tl[n].change + v.change);
      assert Told(tl[n], supplied) && (forall w :: SameStory(merged, w) <==> SameStory(tl[n], w));
    }
  }

  lemma {:induction false} LaidTells(start: real, vs: seq<Interval>, supplied: seq<Interval>)
    requires forall v :: v in vs ==> v in supplied
    ensures AllTold(Laid(start, vs), supplied)
    decreases |vs|
  {
    if vs != [] {
      var n := |vs| - 1;
      var v, before, cursor := vs[n], vs[..n], CursorAfter(start, vs[..n]);
      assert v in vs;
      LaidTells(start, before, supplied);
      AppendTells(Laid(start, before), Absent(cursor, v.startAt), supplied);
      AppendTells(if v.startAt > cursor then Append(Laid(start, before), Absent(cursor, v.startAt)) else Laid(start, before),
                  v, supplied);
    }
  }

  /** Whatever the timeline shows tells the story of a supplied interval, or that there are no measurements. */
  lemma NothingIsInvented(start: real, end: real, vs: seq<Interval>)
    ensures AllTold(TimelineOf(start, end, vs), vs)
  {
    var sorted := SortByStart(vs);
    SameElements(sorted, vs);
    LaidTells(start, sorted, vs);
    AppendTells(Laid(start, sorted), Absent(CursorAfter(start, sorted), end), vs);
  }
}
