/** Which waterings a scan stores, and when one scan is enough, told from the table before the scan. */
module ScanConditions {
  import opened WateringDetection
  import opened EventStore
  import opened EventStoreTheorems
  import opened ScanConvergence

  /** The event makes a stored watering larger. */
  predicate Enlarges(e: WateringEvent, r: Row, device: DeviceId) {
    SameStart(r, device, e) && !r.invalid && e.amount > r.amount
  }

  predicate Untouched(r: Row, device: DeviceId, es: seq<WateringEvent>) {
    forall k :: 0 <= k < |es| ==> !Enlarges(es[k], r, device)
  }

  /** The row stands for a newly stored event. */
  predicate Stored(r: Row, device: DeviceId, e: WateringEvent) {
    r == NewRow(r.id, device, e, r.updatedAt)
  }

  ghost predicate StoredByOne(r: Row, device: DeviceId, es: seq<WateringEvent>) {
    exists k :: 0 <= k < |es| && Stored(r, device, es[k])
  }

  predicate DifferentPeaks(a: Row, b: Row) { a.occurredAt != b.occurredAt || a.after != b.after }

  /** What a pass over `es` makes of the table: rows stay or are enlarged by the one event with their start,
      and what is new is an event with a peak that no earlier row has. */
  ghost predicate AfterPass(rows: seq<Row>, later: seq<Row>, device: DeviceId, es: seq<WateringEvent>) {
    && |rows| <= |later|
    && (forall i :: 0 <= i < |rows| && Untouched(rows[i], device, es) ==> later[i] == rows[i])
    && (forall i, k :: 0 <= i < |rows| && 0 <= k < |es| && Enlarges(es[k], rows[i], device) ==>
          later[i] == Enlarged(rows[i], es[k], later[i].updatedAt))
    && (forall i :: |rows| <= i < |later| ==> StoredByOne(later[i], device, es))
    && NewPeaks(rows, later, device)
  }

  /** Starts and peaks of ordered events differ. */
  lemma EventsDiffer(es: seq<WateringEvent>, j: nat, k: nat)
    requires InOrder(es) && j < k < |es|
    ensures es[j].startAt < es[k].startAt && es[j].occurredAt < es[k].occurredAt
    ensures es[j].occurredAt <= es[k].startAt < es[k].occurredAt
  {
  }

  /** A row that starts with the next event is one from before the pass, and no event has touched it yet. */
  lemma StartIsOld(rows: seq<Row>, mid: seq<Row>, device: DeviceId, es: seq<WateringEvent>, e: WateringEvent, i: nat)
    requires AfterPass(rows, mid, device, es) && InOrder(es + [e]) && i < |mid| && SameStart(mid[i], device, e)
    ensures i < |rows| && Untouched(rows[i], device, es) && mid[i] == rows[i]
  {
    var all := es + [e];
    forall k: nat | k < |es|
      ensures all[k] == es[k] && es[k].startAt < e.startAt
    {
      EventsDiffer(all, k, |es|);
    }
  }

  /** The same for a row with the peak of the next event. */
  lemma PeakIsOld(rows: seq<Row>, mid: seq<Row>, device: DeviceId, es: seq<WateringEvent>, e: WateringEvent, i: nat)
    requires AfterPass(rows, mid, device, es) && InOrder(es + [e]) && i < |mid| && SamePeak(mid[i], device, e)
    ensures i < |rows| && Untouched(rows[i], device, es) && mid[i] == rows[i]
  {
    var all := es + [e];
    forall k: nat | k < |es|
      ensures all[k] == es[k] && es[k].occurredAt < e.occurredAt
    {
      EventsDiffer(all, k, |es|);
    }
  }

  lemma UntouchedSnoc(r: Row, device: DeviceId, es: seq<WateringEvent>, e: WateringEvent)
    ensures Untouched(r, device, es + [e]) <==> Untouched(r, device, es) && !Enlarges(e, r, device)
  {
    var all := es + [e];
    assert all[|es|] == e && forall k :: 0 <= k < |es| ==> all[k] == es[k];
  }

  lemma TouchedByOne(rows: seq<Row>, mid: seq<Row>, device: DeviceId, es: seq<WateringEvent>, e: WateringEvent, i: nat)
    requires UniqueStarts(rows) && AfterPass(rows, mid, device, es) && InOrder(es + [e])
    requires i < |rows| && Enlarges(e, rows[i], device)
    ensures Untouched(rows[i], device, es) && mid[i] == rows[i] && FindStart(mid, device, e) == i
  {
    var all := es + [e];
    forall m | 0 <= m < |es|
      ensures !Enlarges(es[m], rows[i], device)
    {
      EventsDiffer(all, m, |es|);
      assert all[m] == es[m];
    }
    var k := FindStart(mid, device, e);
    assert SameStart(mid[i], device, e);
    StartIsOld(rows, mid, device, es, e, k);
  }

  predicate NewPeaks(rows: seq<Row>, later: seq<Row>, device: DeviceId) {
    forall i, j :: 0 <= i < j < |later| && |rows| <= j && later[i].device == device ==> DifferentPeaks(later[i], later[j])
  }

  lemma PeaksStayDifferent(rows: seq<Row>, mid: seq<Row>, device: DeviceId, es: seq<WateringEvent>, e: WateringEvent, now: real)
    requires UniqueStarts(rows) && AfterPass(rows, mid, device, es) && InOrder(es + [e])
    ensures NewPeaks(rows, Upsert(mid, device, e, now), device)
  {
    var all, later, k := es + [e], Upsert(mid, device, e, now), FindStart(mid, device, e);
    if k < |mid| {
      StartIsOld(rows, mid, device, es, e, k);
      forall j: nat | |rows| <= j < |mid|
        ensures mid[j].occurredAt < e.occurredAt
      {
        assert StoredByOne(mid[j], device, es);
        var m :| 0 <= m < |es| && Stored(mid[j], device, es[m]);
        EventsDiffer(all, m, |es|);
        assert all[m] == es[m];
      }
    }
  }

  /** One more event at the end of the pass. */
  lemma AfterUpsert(rows: seq<Row>, mid: seq<Row>, device: DeviceId, es: seq<WateringEvent>, e: WateringEvent, now: real)
    requires UniqueStarts(rows) && AfterPass(rows, mid, device, es) && InOrder(es + [e])
    ensures AfterPass(rows, Upsert(mid, device, e, now), device, es + [e])
  {
    var all, later := es + [e], Upsert(mid, device, e, now);
    var k := FindStart(mid, device, e);
    assert all[|es|] == e && forall m :: 0 <= m < |es| ==> all[m] == es[m];
    if k < |mid| {
      StartIsOld(rows, mid, device, es, e, k);
    }
    forall i: nat | i < |rows|
      ensures Untouched(rows[i], device, all) ==> later[i] == rows[i]
      ensures Enlarges(e, rows[i], device) ==> i == k && later[i] == Enlarged(rows[i], e, later[i].updatedAt)
    {
      UntouchedSnoc(rows[i], device, es, e);
      if Enlarges(e, rows[i], device) { TouchedByOne(rows, mid, device, es, e, i); }
    }
    forall i: nat | |rows| <= i < |later|
      ensures StoredByOne(later[i], device, all)
    {
      if i < |mid| {
        assert StoredByOne(mid[i], device, es);
        var m :| 0 <= m < |es| && Stored(mid[i], device, es[m]);
        assert Stored(later[i], device, all[m]);
      } else {
        assert Stored(later[i], device, all[|es|]);
      }
    }
    PeaksStayDifferent(rows, mid, device, es, e, now);
  }

  lemma {:induction false} PassSnoc(rows: seq<Row>, device: DeviceId, es: seq<WateringEvent>, times: seq<real>)
    requires |times| == |es| > 0
    ensures var n := |es| - 1;
      Pass(rows, device, es, times) == Upsert(Pass(rows, device, es[..n], times[..n]), device, es[n], times[n])
    decreases |es|
  {
    var n := |es| - 1;
    if n > 0 {
      PassSnoc(Upsert(rows, device, es[0], times[0]), device, es[1..], times[1..]);
      assert es[..n][1..] == es[1..][..n - 1] && times[..n][1..] == times[1..][..n - 1];
    }
  }

  lemma {:induction false} PassDescribed(rows: seq<Row>, device: DeviceId, es: seq<WateringEvent>, times: seq<real>)
    requires |times| == |es| && UniqueStarts(rows) && InOrder(es)
    ensures AfterPass(rows, Pass(rows, device, es, times), device, es)
    decreases |es|
  {
    if es != [] {
      var n := |es| - 1;
      assert es == es[..n] + [es[n]];
      PassDescribed(rows, device, es[..n], times[..n]);
      PassSnoc(rows, device, es, times);
      AfterUpsert(rows, Pass(rows, device, es[..n], times[..n]), device, es[..n], es[n], times[n]);
    }
  }

  // ----- which events are stored -----

  /** The table before the pass has the start of `e` in a row that is invalid or large enough. */
  ghost predicate HasStart(rows: seq<Row>, device: DeviceId, e: WateringEvent) {
    exists i :: 0 <= i < |rows| && SameStart(rows[i], device, e) && (rows[i].invalid || e.amount <= rows[i].amount)
  }

  predicate NoStart(rows: seq<Row>, device: DeviceId, e: WateringEvent) {
    forall i :: 0 <= i < |rows| ==> !SameStart(rows[i], device, e)
  }

  /** It has the peak of `e` in a row that none of the events `es` enlarges. */
  ghost predicate KeepsPeak(rows: seq<Row>, device: DeviceId, es: seq<WateringEvent>, e: WateringEvent) {
    exists i :: 0 <= i < |rows| && SamePeak(rows[i], device, e) && Untouched(rows[i], device, es)
  }

  /** The table before the pass accounts for event `k`: it has its start in a row that is invalid or large
      enough, or else its peak in a row that no earlier event enlarges. */
  ghost predicate AccountedFor(rows: seq<Row>, device: DeviceId, es: seq<WateringEvent>, k: nat)
    requires k < |es|
  {
    HasStart(rows, device, es[k]) || (NoStart(rows, device, es[k]) && KeepsPeak(rows, device, es[..k], es[k]))
  }

  lemma StartsCarryOver(rows: seq<Row>, mid: seq<Row>, device: DeviceId, es: seq<WateringEvent>, e: WateringEvent)
    requires AfterPass(rows, mid, device, es) && InOrder(es + [e])
    ensures HasStart(mid, device, e) <==> HasStart(rows, device, e)
    ensures NoStart(mid, device, e) <==> NoStart(rows, device, e)
  {
    forall i: nat | i < |mid| && SameStart(mid[i], device, e)
      ensures i < |rows| && mid[i] == rows[i]
    {
      StartIsOld(rows, mid, device, es, e, i);
    }
    forall i: nat | i < |rows| && SameStart(rows[i], device, e)
      ensures mid[i] == rows[i]
    {
      OldStart(rows, mid, device, es, e, i);
    }
  }

  lemma PeaksCarryOver(rows: seq<Row>, mid: seq<Row>, device: DeviceId, es: seq<WateringEvent>, e: WateringEvent)
    requires AfterPass(rows, mid, device, es) && InOrder(es + [e])
    ensures KeepsPeak(mid, device, [], e) <==> KeepsPeak(rows, device, es, e)
  {
    forall i: nat | i < |mid| && SamePeak(mid[i], device, e)
      ensures i < |rows| && Untouched(rows[i], device, es) && mid[i] == rows[i]
    {
      PeakIsOld(rows, mid, device, es, e, i);
    }
    if i :| 0 <= i < |rows| && SamePeak(rows[i], device, e) && Untouched(rows[i], device, es) {
      assert mid[i] == rows[i] && Untouched(mid[i], device, []);
    }
    if i :| 0 <= i < |mid| && SamePeak(mid[i], device, e) {
      assert SamePeak(rows[i], device, e);
    }
  }

  lemma SatisfiedParts(mid: seq<Row>, device: DeviceId, e: WateringEvent)
    ensures Satisfied(mid, device, e) <==>
      HasStart(mid, device, e) || (NoStart(mid, device, e) && KeepsPeak(mid, device, [], e))
  {
    if i :| 0 <= i < |mid| && SamePeak(mid[i], device, e) {
      assert Untouched(mid[i], device, []);
    }
  }

  lemma AccountedByThen(rows: seq<Row>, mid: seq<Row>, device: DeviceId, es: seq<WateringEvent>, e: WateringEvent)
    requires AfterPass(rows, mid, device, es) && InOrder(es + [e])
    ensures Satisfied(mid, device, e) <==>
      HasStart(rows, device, e) || (NoStart(rows, device, e) && KeepsPeak(rows, device, es, e))
  {
    SatisfiedParts(mid, device, e);
    StartsCarryOver(rows, mid, device, es, e);
    PeaksCarryOver(rows, mid, device, es, e);
  }

  lemma PrefixInOrder(es: seq<WateringEvent>, k: nat)
    requires InOrder(es) && k < |es|
    ensures InOrder(es[..k]) && InOrder(es[..k] + [es[k]])
  {
    assert es[..k + 1] == es[..k] + [es[k]];
  }

  /** An event changes the table at its turn exactly when the table before the pass does not account for it. */
  lemma StoredExactlyWhen(rows: seq<Row>, device: DeviceId, es: seq<WateringEvent>, times: seq<real>, k: nat)
    requires |times| == |es| && UniqueStarts(rows) && InOrder(es) && k < |es|
    ensures Satisfied(MetBy(rows, device, es, times, k), device, es[k]) <==> AccountedFor(rows, device, es, k)
  {
    PrefixInOrder(es, k);
    PassDescribed(rows, device, es[..k], times[..k]);
    AccountedByThen(rows, MetBy(rows, device, es, times, k), device, es[..k], es[k]);
  }

  lemma OldStart(rows: seq<Row>, mid: seq<Row>, device: DeviceId, es: seq<WateringEvent>, e: WateringEvent, i: nat)
    requires AfterPass(rows, mid, device, es) && InOrder(es + [e]) && i < |rows| && SameStart(rows[i], device, e)
    ensures Untouched(rows[i], device, es) && mid[i] == rows[i]
  {
    var all := es + [e];
    forall m | 0 <= m < |es|
      ensures !Enlarges(es[m], rows[i], device)
    {
      EventsDiffer(all, m, |es|);
      assert all[m] == es[m];
    }
  }

  // ----- which rows become copies -----

  /** An event enlarges row `i` to the peak of row `j`, which has its baseline and stays as it is, and the
      later of the two is valid. */
  predicate BecomesCopy(rows: seq<Row>, device: DeviceId, es: seq<WateringEvent>, k: nat, i: nat, j: nat) {
    && k < |es| && i < |rows| && j < |rows| && i != j
    && Enlarges(es[k], rows[i], device) && SamePeak(rows[j], device, es[k]) && Untouched(rows[j], device, es)
    && rows[j].before == rows[i].before && (i < j ==> !rows[j].invalid)
  }

  ghost predicate MakesCopy(rows: seq<Row>, device: DeviceId, es: seq<WateringEvent>) {
    exists k, i, j :: BecomesCopy(rows, device, es, k, i, j)
  }

  lemma CopyIsMade(rows: seq<Row>, later: seq<Row>, device: DeviceId, es: seq<WateringEvent>, k: nat, i: nat, j: nat)
    requires AfterPass(rows, later, device, es) && BecomesCopy(rows, device, es, k, i, j)
    ensures !NoValidCopies(later, device)
  {
    assert later[i] == Enlarged(rows[i], es[k], later[i].updatedAt) && later[j] == rows[j];
    assert Twins(later[i], later[j]) && Twins(later[j], later[i]);
    var b: nat := if i < j then j else i;
    assert IsCopy(later, b) && later[b].device == device && !later[b].invalid;
  }

  lemma CopyWasMade(rows: seq<Row>, later: seq<Row>, device: DeviceId, es: seq<WateringEvent>, a: nat, b: nat)
    requires AfterPass(rows, later, device, es) && UniqueStarts(rows) && InOrder(es) && NoValidCopies(rows, device)
    requires a < b < |later| && later[b].device == device && !later[b].invalid && Twins(later[a], later[b])
    ensures MakesCopy(rows, device, es)
  {
    assert b < |rows|;
    var a', b' := Untouched(rows[a], device, es), Untouched(rows[b], device, es);
    if !a' {
      var k: nat :| k < |es| && Enlarges(es[k], rows[a], device);
      OnlyOneEnlarged(rows, later, device, es, k, a, b);
      assert BecomesCopy(rows, device, es, k, a, b);
    } else if !b' {
      var k: nat :| k < |es| && Enlarges(es[k], rows[b], device);
      assert BecomesCopy(rows, device, es, k, b, a);
    } else {
      assert later[a] == rows[a] && later[b] == rows[b];
      assert IsCopy(rows, b);
      assert false;
    }
  }

  /** Two rows enlarged by the pass have different peaks. */
  lemma OnlyOneEnlarged(rows: seq<Row>, later: seq<Row>, device: DeviceId, es: seq<WateringEvent>, k: nat, a: nat, b: nat)
    requires AfterPass(rows, later, device, es) && UniqueStarts(rows) && InOrder(es)
    requires k < |es| && a < b < |rows| && Enlarges(es[k], rows[a], device) && Twins(later[a], later[b])
    ensures Untouched(rows[b], device, es)
  {
    forall m: nat | m < |es|
      ensures !Enlarges(es[m], rows[b], device)
    {
      if m < k { EventsDiffer(es, m, k); } else if k < m { EventsDiffer(es, k, m); }
    }
  }

  /** A pass leaves a valid copy exactly when an event enlarges a row to the measurement of another. */
  lemma PassCopiesExactlyWhen(rows: seq<Row>, device: DeviceId, es: seq<WateringEvent>, times: seq<real>)
    requires |times| == |es| && UniqueStarts(rows) && InOrder(es) && NoValidCopies(rows, device)
    ensures NoValidCopies(Pass(rows, device, es, times), device) <==> !MakesCopy(rows, device, es)
  {
    var later := Pass(rows, device, es, times);
    PassDescribed(rows, device, es, times);
    if MakesCopy(rows, device, es) {
      var k, i, j :| BecomesCopy(rows, device, es, k, i, j);
      CopyIsMade(rows, later, device, es, k, i, j);
    }
    if !NoValidCopies(later, device) {
      var b: nat :| b < |later| && later[b].device == device && IsCopy(later, b) && !later[b].invalid;
      var a: nat :| a < b && Twins(later[a], later[b]);
      CopyWasMade(rows, later, device, es, a, b);
    }
  }

  // ----- one scan -----

  /** The cleaned-up table accounts for every event over the limit. */
  ghost predicate LimitKept(tidy: seq<Row>, device: DeviceId, es: seq<WateringEvent>, maxAmount: real) {
    forall k: nat :: k < |es| && es[k].amount > maxAmount ==> AccountedFor(tidy, device, es, k)
  }

  /** A scan leaves no valid watering over the limit exactly when the table, cleaned up as the scan does it
      first, accounts for every event over the limit; otherwise the next scan hides what this one stored. */
  lemma OverLimitShownExactlyWhen(rows: seq<Row>, device: DeviceId, es: seq<WateringEvent>, maxAmount: real,
                                  first: seq<real>, second: seq<real>)
    requires |first| == |second| == |es| + 2 && WellFormed(rows) && InOrder(es)
    ensures var tidy, once := Tidy(rows, device, maxAmount, first[0], first[1]), Scan(rows, device, es, maxAmount, first);
      && (NoneAbove(once, device, maxAmount) <==> LimitKept(tidy, device, es, maxAmount))
      && NoneAbove(Scan(once, device, es, maxAmount, second), device, maxAmount)
  {
    var tidy := Tidy(rows, device, maxAmount, first[0], first[1]);
    OverLimitShownUntilNextScan(rows, device, es, maxAmount, first, second);
    TidyKeeps(rows, device, maxAmount, first[0], first[1]);
    forall k: nat | k < |es|
      ensures StoresOverLimit(tidy, device, es, first[2..], maxAmount, k) <==>
        es[k].amount > maxAmount && !AccountedFor(tidy, device, es, k)
    {
      StoredExactlyWhen(tidy, device, es, first[2..], k);
    }
  }

  /** One scan is enough exactly when the table, cleaned up as the scan does it first, accounts for every
      event over the limit and no event enlarges a row to the measurement of another one. */
  lemma OneScanIsEnoughExactlyWhen(rows: seq<Row>, device: DeviceId, es: seq<WateringEvent>, maxAmount: real,
                                   first: seq<real>, second: seq<real>)
    requires |first| == |second| == |es| + 2 && WellFormed(rows) && InOrder(es)
    ensures var tidy, once := Tidy(rows, device, maxAmount, first[0], first[1]), Scan(rows, device, es, maxAmount, first);
      Scan(once, device, es, maxAmount, second) == once <==>
        LimitKept(tidy, device, es, maxAmount) && !MakesCopy(tidy, device, es)
  {
    var tidy := Tidy(rows, device, maxAmount, first[0], first[1]);
    OneScanConvergesExactlyWhen(rows, device, es, maxAmount, first, second);
    OverLimitShownExactlyWhen(rows, device, es, maxAmount, first, second);
    TidyKeeps(rows, device, maxAmount, first[0], first[1]);
    TidyTidies(rows, device, maxAmount, first[0], first[1]);
    PassCopiesExactlyWhen(tidy, device, es, first[2..]);
  }
}
