/** What repeated scans of one device do to the stored waterings. */
module ScanConvergence {
  import opened WateringDetection
  import opened EventStore
  import opened EventStoreTheorems

  /** What a scan does before it stores anything. */
  function Tidy(rows: seq<Row>, device: DeviceId, maxAmount: real, above: real, copies: real): seq<Row> {
    MarkCopies(MarkAbove(rows, device, maxAmount, above), device, copies)
  }

  /** One scan that detects `es`: the clock readings are those of the two clean-ups and of every upsert. */
  function Scan(rows: seq<Row>, device: DeviceId, es: seq<WateringEvent>, maxAmount: real, times: seq<real>): seq<Row>
    requires |times| == |es| + 2
  {
    Pass(Tidy(rows, device, maxAmount, times[0], times[1]), device, es, times[2..])
  }

  predicate NoneAbove(rows: seq<Row>, device: DeviceId, maxAmount: real) {
    forall k :: 0 <= k < |rows| ==> !IsAbove(rows[k], device, maxAmount)
  }

  predicate NoValidCopies(rows: seq<Row>, device: DeviceId) {
    forall k: nat :: k < |rows| && rows[k].device == device && IsCopy(rows, k) ==> rows[k].invalid
  }

  lemma CopiesStay(rows: seq<Row>, device: DeviceId, maxAmount: real, above: real, k: nat)
    requires k < |rows|
    ensures IsCopy(MarkAbove(rows, device, maxAmount, above), k) <==> IsCopy(rows, k)
    ensures IsCopy(MarkCopies(rows, device, above), k) <==> IsCopy(rows, k)
  {
    var a, c := MarkAbove(rows, device, maxAmount, above), MarkCopies(rows, device, above);
    assert forall j :: 0 <= j < |rows| ==> (Twins(a[j], a[k]) <==> Twins(rows[j], rows[k]));
    assert forall j :: 0 <= j < |rows| ==> (Twins(c[j], c[k]) <==> Twins(rows[j], rows[k]));
  }

  lemma TidyTidies(rows: seq<Row>, device: DeviceId, maxAmount: real, above: real, copies: real)
    ensures var tidy := Tidy(rows, device, maxAmount, above, copies);
      NoneAbove(tidy, device, maxAmount) && NoValidCopies(tidy, device)
  {
    var marked := MarkAbove(rows, device, maxAmount, above);
    forall k: nat | k < |rows|
      ensures IsCopy(MarkCopies(marked, device, copies), k) <==> IsCopy(marked, k)
    {
      CopiesStay(marked, device, maxAmount, copies, k);
    }
  }

  /** The clean-ups change nothing exactly when no valid row is over the limit or a later copy. */
  lemma TidyIdleExactlyWhen(rows: seq<Row>, device: DeviceId, maxAmount: real, above: real, copies: real)
    ensures Tidy(rows, device, maxAmount, above, copies) == rows <==> NoneAbove(rows, device, maxAmount) && NoValidCopies(rows, device)
  {
    if NoneAbove(rows, device, maxAmount) && NoValidCopies(rows, device) {
      assert MarkAbove(rows, device, maxAmount, above) == rows;
      assert MarkCopies(rows, device, copies) == rows;
    }
    TidyTidies(rows, device, maxAmount, above, copies);
  }

  lemma TidyKeeps(rows: seq<Row>, device: DeviceId, maxAmount: real, above: real, copies: real)
    requires UniqueStarts(rows)
    ensures var tidy := Tidy(rows, device, maxAmount, above, copies);
      UniqueStarts(tidy) && RowsEvolve(rows, tidy) && (WellFormed(rows) ==> WellFormed(tidy))
  {
  }

  lemma TidyKeepsSatisfied(rows: seq<Row>, device: DeviceId, maxAmount: real, above: real, copies: real, e: WateringEvent)
    requires Satisfied(rows, device, e)
    ensures Satisfied(Tidy(rows, device, maxAmount, above, copies), device, e)
  {
    var tidy := Tidy(rows, device, maxAmount, above, copies);
    if k :| 0 <= k < |rows| && SameStart(rows[k], device, e) && (rows[k].invalid || e.amount <= rows[k].amount) {
      assert SameStart(tidy[k], device, e);
    } else {
      var p :| 0 <= p < |rows| && SamePeak(rows[p], device, e);
      assert SamePeak(tidy[p], device, e);
    }
  }

  /** A scan that follows another with the same events only cleans up after it. */
  lemma RescanOnlyTidies(rows: seq<Row>, device: DeviceId, es: seq<WateringEvent>, maxAmount: real, times: seq<real>, again: seq<real>)
    requires |times| == |again| == |es| + 2 && WellFormed(rows) && InOrder(es)
    ensures var first := Scan(rows, device, es, maxAmount, times);
      && WellFormed(first)
      && Scan(first, device, es, maxAmount, again) == Tidy(first, device, maxAmount, again[0], again[1])
  {
    var tidy := Tidy(rows, device, maxAmount, times[0], times[1]);
    var first := Scan(rows, device, es, maxAmount, times);
    TidyKeeps(rows, device, maxAmount, times[0], times[1]);
    PassKeepsWellFormed(tidy, device, es, times[2..]);
    PassSatisfies(tidy, device, es, times[2..]);
    forall e | e in es
      ensures Satisfied(Tidy(first, device, maxAmount, again[0], again[1]), device, e)
    {
      TidyKeepsSatisfied(first, device, maxAmount, again[0], again[1], e);
    }
    TidyKeeps(first, device, maxAmount, again[0], again[1]);
    SatisfiedPassIsIdle(Tidy(first, device, maxAmount, again[0], again[1]), device, es, again[2..]);
  }

  /** Two scans reach the final state: a third one changes nothing, at whatever times they run. */
  lemma TwoScansConverge(rows: seq<Row>, device: DeviceId, es: seq<WateringEvent>, maxAmount: real,
                         first: seq<real>, second: seq<real>, third: seq<real>)
    requires |first| == |second| == |third| == |es| + 2 && WellFormed(rows) && InOrder(es)
    ensures var twice := Scan(Scan(rows, device, es, maxAmount, first), device, es, maxAmount, second);
      Scan(twice, device, es, maxAmount, third) == twice
  {
    var once := Scan(rows, device, es, maxAmount, first);
    RescanOnlyTidies(rows, device, es, maxAmount, first, second);
    var twice := Scan(once, device, es, maxAmount, second);
    RescanOnlyTidies(once, device, es, maxAmount, second, third);
    TidyTidies(once, device, maxAmount, second[0], second[1]);
    TidyIdleExactlyWhen(twice, device, maxAmount, third[0], third[1]);
  }

  /** One scan is enough exactly when it left no valid row over the limit and no valid later copy. */
  lemma OneScanConvergesExactlyWhen(rows: seq<Row>, device: DeviceId, es: seq<WateringEvent>, maxAmount: real,
                                    first: seq<real>, second: seq<real>)
    requires |first| == |second| == |es| + 2 && WellFormed(rows) && InOrder(es)
    ensures var once := Scan(rows, device, es, maxAmount, first);
      Scan(once, device, es, maxAmount, second) == once <==> NoneAbove(once, device, maxAmount) && NoValidCopies(once, device)
  {
    RescanOnlyTidies(rows, device, es, maxAmount, first, second);
    TidyIdleExactlyWhen(Scan(rows, device, es, maxAmount, first), device, maxAmount, second[0], second[1]);
  }

  // ----- waterings over the limit -----

  /** The state in which event `k` of the pass meets the table. */
  function MetBy(rows: seq<Row>, device: DeviceId, es: seq<WateringEvent>, times: seq<real>, k: nat): seq<Row>
    requires |times| == |es| && k <= |es|
  {
    Pass(rows, device, es[..k], times[..k])
  }

  /** Event `k` is over the limit and is stored all the same. */
  ghost predicate StoresOverLimit(rows: seq<Row>, device: DeviceId, es: seq<WateringEvent>, times: seq<real>, maxAmount: real, k: nat)
    requires |times| == |es|
  {
    k < |es| && es[k].amount > maxAmount && !Satisfied(MetBy(rows, device, es, times, k), device, es[k])
  }

  lemma {:induction false} AboveStays(rows: seq<Row>, device: DeviceId, es: seq<WateringEvent>, times: seq<real>, maxAmount: real)
    requires |times| == |es| && !NoneAbove(rows, device, maxAmount)
    ensures !NoneAbove(Pass(rows, device, es, times), device, maxAmount)
    decreases |es|
  {
    if es != [] {
      var next := Upsert(rows, device, es[0], times[0]);
      var k :| 0 <= k < |rows| && IsAbove(rows[k], device, maxAmount);
      assert IsAbove(next[k], device, maxAmount);
      AboveStays(next, device, es[1..], times[1..], maxAmount);
    }
  }

  lemma UpsertAboveExactlyWhen(rows: seq<Row>, device: DeviceId, e: WateringEvent, now: real, maxAmount: real)
    requires UniqueStarts(rows) && NoneAbove(rows, device, maxAmount)
    ensures NoneAbove(Upsert(rows, device, e, now), device, maxAmount) <==> e.amount <= maxAmount || Satisfied(rows, device, e)
  {
    UpsertIdleExactlyWhen(rows, device, e, now);
    var after := Upsert(rows, device, e, now);
    if !Satisfied(rows, device, e) && e.amount > maxAmount {
      var k := FindStart(rows, device, e);
      assert IsAbove(after[k], device, maxAmount);
    }
  }

  lemma StoresLater(rows: seq<Row>, device: DeviceId, es: seq<WateringEvent>, times: seq<real>, maxAmount: real, k: nat)
    requires |times| == |es| > 0
    ensures StoresOverLimit(rows, device, es, times, maxAmount, k + 1) <==>
      StoresOverLimit(Upsert(rows, device, es[0], times[0]), device, es[1..], times[1..], maxAmount, k)
  {
    if k < |es| - 1 {
      assert es[..k + 1][1..] == es[1..][..k] && times[..k + 1][1..] == times[1..][..k];
      assert MetBy(rows, device, es, times, k + 1)
          == MetBy(Upsert(rows, device, es[0], times[0]), device, es[1..], times[1..], k);
    }
  }

  /** A pass leaves a valid watering over the limit exactly when one of its events over the limit was stored. */
  lemma {:induction false} PassAboveExactlyWhen(rows: seq<Row>, device: DeviceId, es: seq<WateringEvent>,
                                                times: seq<real>, maxAmount: real)
    requires |times| == |es| && UniqueStarts(rows) && NoneAbove(rows, device, maxAmount)
    ensures NoneAbove(Pass(rows, device, es, times), device, maxAmount) <==>
      forall k: nat :: !StoresOverLimit(rows, device, es, times, maxAmount, k)
    decreases |es|
  {
    if es != [] {
      var next := Upsert(rows, device, es[0], times[0]);
      UpsertAboveExactlyWhen(rows, device, es[0], times[0], maxAmount);
      UpsertKeepsWellFormed(rows, device, es[0], times[0]);
      assert MetBy(rows, device, es, times, 0) == rows;
      assert StoresOverLimit(rows, device, es, times, maxAmount, 0) <==> !NoneAbove(next, device, maxAmount);
      if NoneAbove(next, device, maxAmount) {
        PassAboveExactlyWhen(next, device, es[1..], times[1..], maxAmount);
        forall k: nat
          ensures StoresOverLimit(rows, device, es, times, maxAmount, k + 1)
             <==> StoresOverLimit(next, device, es[1..], times[1..], maxAmount, k)
        {
          StoresLater(rows, device, es, times, maxAmount, k);
        }
        assert forall k: nat :: StoresOverLimit(rows, device, es, times, maxAmount, k) ==>
          k > 0 && StoresOverLimit(next, device, es[1..], times[1..], maxAmount, k - 1);
      } else {
        AboveStays(next, device, es[1..], times[1..], maxAmount);
      }
    }
  }

  /** A scan leaves a watering over the limit valid exactly when it stored one at its turn; the next scan hides it. */
  lemma OverLimitShownUntilNextScan(rows: seq<Row>, device: DeviceId, es: seq<WateringEvent>, maxAmount: real,
                                    first: seq<real>, second: seq<real>)
    requires |first| == |second| == |es| + 2 && WellFormed(rows) && InOrder(es)
    ensures var tidy, once := Tidy(rows, device, maxAmount, first[0], first[1]), Scan(rows, device, es, maxAmount, first);
      && (NoneAbove(once, device, maxAmount) <==> forall k: nat :: !StoresOverLimit(tidy, device, es, first[2..], maxAmount, k))
      && NoneAbove(Scan(once, device, es, maxAmount, second), device, maxAmount)
  {
    TidyTidies(rows, device, maxAmount, first[0], first[1]);
    TidyKeeps(rows, device, maxAmount, first[0], first[1]);
    PassAboveExactlyWhen(Tidy(rows, device, maxAmount, first[0], first[1]), device, es, first[2..], maxAmount);
    RescanOnlyTidies(rows, device, es, maxAmount, first, second);
    TidyTidies(Scan(rows, device, es, maxAmount, first), device, maxAmount, second[0], second[1]);
  }

  // ----- scans among all other updates -----

  function Upserts(device: DeviceId, es: seq<WateringEvent>, times: seq<real>): seq<Update>
    requires |times| == |es|
  {
    seq(|es|, k requires 0 <= k < |es| => Upserted(device, es[k], times[k]))
  }

  /** The updates of one scan. */
  function ScanUpdates(device: DeviceId, es: seq<WateringEvent>, maxAmount: real, times: seq<real>): seq<Update>
    requires |times| == |es| + 2
  {
    [InvalidateAbove(device, maxAmount, times[0]), InvalidateCopies(device, times[1])] + Upserts(device, es, times[2..])
  }

  lemma {:induction false} PassIsRun(rows: seq<Row>, device: DeviceId, es: seq<WateringEvent>, times: seq<real>)
    requires |times| == |es|
    ensures Pass(rows, device, es, times) == Run(rows, Upserts(device, es, times))
    decreases |es|
  {
    if es != [] {
      assert Upserts(device, es, times)[1..] == Upserts(device, es[1..], times[1..]);
      PassIsRun(Upsert(rows, device, es[0], times[0]), device, es[1..], times[1..]);
    }
  }

  lemma RunTwo(rows: seq<Row>, a: Update, b: Update, us: seq<Update>)
    ensures Run(rows, [a, b] + us) == Run(Step(Step(rows, a), b), us)
  {
    assert ([a, b] + us)[1..] == [b] + us && ([b] + us)[1..] == us;
  }

  /** A scan is a run of updates, so everything that holds over runs holds over scans. */
  lemma ScanIsRun(rows: seq<Row>, device: DeviceId, es: seq<WateringEvent>, maxAmount: real, times: seq<real>)
    requires |times| == |es| + 2
    ensures Scan(rows, device, es, maxAmount, times) == Run(rows, ScanUpdates(device, es, maxAmount, times))
  {
    PassIsRun(Tidy(rows, device, maxAmount, times[0], times[1]), device, es, times[2..]);
    RunTwo(rows, InvalidateAbove(device, maxAmount, times[0]), InvalidateCopies(device, times[1]),
           Upserts(device, es, times[2..]));
  }

  // ----- other devices -----

  /** Rows of other devices stay as they are, and every new row belongs to the device. */
  predicate OnlyDevice(rows: seq<Row>, later: seq<Row>, device: DeviceId) {
    && |rows| <= |later|
    && (forall k :: 0 <= k < |rows| && rows[k].device != device ==> later[k] == rows[k])
    && (forall k :: |rows| <= k < |later| ==> later[k].device == device)
    && (forall k :: 0 <= k < |rows| ==> later[k].device == rows[k].device)
  }

  lemma {:induction false} PassStaysInDevice(rows: seq<Row>, device: DeviceId, es: seq<WateringEvent>, times: seq<real>)
    requires |times| == |es|
    ensures OnlyDevice(rows, Pass(rows, device, es, times), device)
    decreases |es|
  {
    if es != [] {
      PassStaysInDevice(Upsert(rows, device, es[0], times[0]), device, es[1..], times[1..]);
    }
  }

  /** A scan of one device never touches the waterings of another. */
  lemma ScanStaysInDevice(rows: seq<Row>, device: DeviceId, es: seq<WateringEvent>, maxAmount: real, times: seq<real>)
    requires |times| == |es| + 2
    ensures OnlyDevice(rows, Scan(rows, device, es, maxAmount, times), device)
  {
    PassStaysInDevice(Tidy(rows, device, maxAmount, times[0], times[1]), device, es, times[2..]);
  }
}
