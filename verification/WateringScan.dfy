/** One scan of a plant's weight history: overlapping one-day queries, detection, and the store. */
module WateringScan {
  import opened Numbers
  import opened Samples
  import opened SortedSets
  import opened WateringDetection
  import opened EventStore
  import opened EventStoreTheorems
  import opened ScanConditions
  import opened ScanConvergence

  const DAY := 86400.0
  const MAX_DEVICE_SAMPLE_INTERVAL_MIN := 50
  const MIN_DETECTED_WATERING_G := 50.0

  /** The weights Prometheus holds for one scale, by timestamp in seconds. */
  type History = map<int, real>

  function FloorMinute(t: real): int { (t / 60.0).Floor * 60 }

  /** What a range query returns: one sample a minute, both ends rounded down to the minute. */
  function RangeSamples(history: History, start: real, end: real): History {
    map t | t in history && t % 60 == 0 && FloorMinute(start) <= t <= FloorMinute(end) :: history[t]
  }

  /** History enough to see the weight before a watering at the start of the range. */
  function Overlap(windowMin: nat): (overlap: real)
    ensures overlap > 0.0 && (overlap < DAY ==> overlap <= DAY - 60.0)
  {
    (if windowMin > MAX_DEVICE_SAMPLE_INTERVAL_MIN then windowMin else MAX_DEVICE_SAMPLE_INTERVAL_MIN) as real * 60.0
  }

  // ----- the chunk loop -----

  /** The loop finishes: either each chunk starts later than the one before, or the first chunk is also the last. */
  predicate Finishes(start: real, end: real, overlap: real) {
    overlap < DAY || end <= start - overlap + DAY
  }

  /** Where the loop stands after `n` chunks, unless it has left. */
  function ChunkStart(start: real, end: real, overlap: real, n: nat): real {
    if n == 0 then start - overlap
    else Min(ChunkStart(start, end, overlap, n - 1) + DAY, end) - overlap
  }

  /** The loop is still running after `n` chunks. */
  predicate Running(start: real, end: real, overlap: real, n: nat) {
    forall k: nat :: k < n ==> ChunkStart(start, end, overlap, k) < end && ChunkStart(start, end, overlap, k) + DAY < end
  }

  lemma {:induction false} ChunksAdvance(start: real, end: real, overlap: real, n: nat)
    requires Running(start, end, overlap, n)
    ensures ChunkStart(start, end, overlap, n) == start - overlap + n as real * (DAY - overlap)
  {
    if n > 0 {
      assert Running(start, end, overlap, n - 1);
      ChunksAdvance(start, end, overlap, n - 1);
      assert n as real * (DAY - overlap) == (n - 1) as real * (DAY - overlap) + (DAY - overlap);
    }
  }

  lemma {:induction false} NeverLeaves(start: real, end: real, overlap: real, n: nat)
    requires overlap >= DAY && start - overlap + DAY < end
    ensures Running(start, end, overlap, n) && ChunkStart(start, end, overlap, n) <= start - overlap
  {
    if n > 0 { NeverLeaves(start, end, overlap, n - 1); }
  }

  lemma StepsReach(distance: real, step: real) returns (n: nat)
    requires step > 0.0
    ensures n as real * step >= distance
  {
    if distance <= 0.0 { return 0; }
    var q := distance / step;
    n := q.Floor + 1;
    assert n as real >= q;
    assert q * step == distance;
    assert (n as real - q) * step >= 0.0;
  }

  /** The loop ends exactly when the overlap is shorter than a day, or the first chunk reaches the end. */
  lemma ChunkLoopEndsExactlyWhen(start: real, end: real, overlap: real)
    ensures (exists n: nat :: !Running(start, end, overlap, n)) <==> Finishes(start, end, overlap)
  {
    if !Finishes(start, end, overlap) {
      forall n: nat ensures Running(start, end, overlap, n) { NeverLeaves(start, end, overlap, n); }
    } else if overlap >= DAY {
      assert ChunkStart(start, end, overlap, 0) == start - overlap;
      assert !Running(start, end, overlap, 1);
    } else {
      var n := StepsReach(end - (start - overlap), DAY - overlap);
      if Running(start, end, overlap, n) {
        ChunksAdvance(start, end, overlap, n);
        assert !(ChunkStart(start, end, overlap, n) < end);
        assert !Running(start, end, overlap, n + 1);
      }
    }
  }

  lemma FloorMinuteMonotone(a: real, b: real)
    requires a <= b
    ensures FloorMinute(a) <= FloorMinute(b)
  {
    assert a / 60.0 <= b / 60.0;
  }

  /** Two ranges that overlap or touch make up the range that spans them. */
  lemma RangesJoin(history: History, a: real, b: real, c: real, d: real)
    requires a <= b <= c && a <= d <= c && b <= d
    ensures RangeSamples(history, a, d) + RangeSamples(history, b, c) == RangeSamples(history, a, c)
  {
    FloorMinuteMonotone(a, b);
    FloorMinuteMonotone(b, d);
    FloorMinuteMonotone(d, c);
  }

  /** The samples a scan works on. */
  function Collected(history: History, start: real, end: real, windowMin: nat): History {
    if start - Overlap(windowMin) < end then RangeSamples(history, start - Overlap(windowMin), end) else map[]
  }

  /** The samples of all chunks together: every chunk edge is covered, none is lost or counted twice. */
  method CollectSamples(history: History, start: real, end: real, windowMin: nat) returns (samples: History)
    requires Finishes(start, end, Overlap(windowMin))
    ensures samples == Collected(history, start, end, windowMin)
  {
    samples := map[];
    var overlap := Overlap(windowMin);
    var chunkStart := start - overlap;
    ghost var reached := start - overlap;
    while chunkStart < end
      invariant start - overlap <= chunkStart <= reached
      invariant chunkStart == start - overlap ==> reached == chunkStart && samples == map[]
      invariant chunkStart > start - overlap ==> reached < end && chunkStart == reached - overlap && overlap < DAY
      invariant chunkStart > start - overlap ==> samples == RangeSamples(history, start - overlap, reached)
      decreases end - chunkStart
    {
      var chunkEnd := Min(chunkStart + DAY, end);
      samples := samples + RangeSamples(history, chunkStart, chunkEnd);
      RangesJoin(history, start - overlap, chunkStart, chunkEnd, reached);
      reached := chunkEnd;
      if chunkEnd >= end {
        break;
      }
      chunkStart := chunkEnd - overlap;
    }
  }

  // ----- the scan -----

  /** The samples as a list sorted by time. */
  function SortedItems(m: History): (s: seq<Sample>)
    ensures StrictlyTimed(s) && |s| == |m|
  {
    var keys := SortedKeys(m.Keys);
    seq(|keys|, k requires 0 <= k < |keys| => assert keys[k] in keys; Sample(keys[k] as real, m[keys[k]]))
  }

  function Within(es: seq<WateringEvent>, start: real, end: real): (r: seq<WateringEvent>)
    ensures forall e :: e in r <==> e in es && start <= e.occurredAt <= end
  {
    if es == [] then []
    else (if start <= es[0].occurredAt <= end then [es[0]] else []) + Within(es[1..], start, end)
  }

  datatype Result =
    | Scanned(scannedPoints: nat, detected: nat, created: nat, existing: nat)
    | Failed(reason: string)

  function Times(clock: nat -> real, first: nat, n: nat): (times: seq<real>)
    ensures |times| == n
  {
    seq(n, i requires 0 <= i < n => clock(first + i))
  }

  lemma ScanUnfolds(rows: seq<Row>, device: DeviceId, es: seq<WateringEvent>, maxAmount: real, clock: nat -> real)
    ensures Scan(rows, device, es, maxAmount, Times(clock, 0, |es| + 2))
         == Pass(Tidy(rows, device, maxAmount, clock(0), clock(1)), device, es, Times(clock, 2, |es|))
  {
    var times := Times(clock, 0, |es| + 2);
    assert times[2..] == Times(clock, 2, |es|);
    assert times[0] == clock(0) && times[1] == clock(1);
  }

  /** What the detector finds in the history, or why it refuses to look. */
  function Findings(history: History, start: real, end: real, windowMin: nat, maxAmount: real): Detection {
    var d := Detect(SortedItems(Collected(history, start, end, windowMin)), Seconds(windowMin), MIN_DETECTED_WATERING_G, maxAmount);
    Restricted(d, start, end)
  }

  function Seconds(minutes: nat): real { minutes as real * 60.0 }

  function Restricted(d: Detection, start: real, end: real): Detection {
    if d.Detected? then Detected(Within(d.events, start, end)) else d
  }

  class PlantWateringDetector {
    const store: PlantWateringEventStore
    const maxAmount: real
    const windowMin: nat

    /** A window of no minutes is refused by the program. */
    constructor (store: PlantWateringEventStore, maxAmount: real, windowMin: nat)
      requires windowMin > 0
      ensures this.store == store && this.maxAmount == maxAmount && this.windowMin == windowMin
    {
      this.store, this.maxAmount, this.windowMin := store, maxAmount, windowMin;
    }

    method ScanDevice(device: DeviceId, isPlant: bool, history: History, start: real, end: real, clock: nat -> real)
      returns (r: Result)
      requires windowMin > 0 && Finishes(start, end, Overlap(windowMin))
      modifies store
      ensures !isPlant ==> r == Scanned(0, 0, 0, 0) && store.rows == old(store.rows)
      ensures isPlant ==> match Findings(history, start, end, windowMin, maxAmount)
        case Rejected(reason) => r == Failed(reason) && store.rows == Tidy(old(store.rows), device, maxAmount, clock(0), clock(1))
        case Detected(es) =>
          && store.rows == Scan(old(store.rows), device, es, maxAmount, Times(clock, 0, |es| + 2))
          && r.Scanned? && r.scannedPoints == |Collected(history, start, end, windowMin)|
          && r.detected == |es| && r.created == |store.rows| - |old(store.rows)| && r.existing == |es| - r.created
    {
      if !isPlant {
        return Scanned(0, 0, 0, 0);
      }
      var points, detection := DetectIn(history, start, end);
      var _ := store.InvalidateAboveAmount(device, maxAmount, clock(0));
      var _ := store.InvalidateExactDuplicates(device, clock(1));
      if detection.Rejected? {
        return Failed(detection.reason);
      }
      var events := detection.events;
      var created := StoreEvents(device, events, clock);
      ScanUnfolds(old(store.rows), device, events, maxAmount, clock);
      return Scanned(points, |events|, created, |events| - created);
    }

    /** The number of samples read and the waterings of the range. */
    method DetectIn(history: History, start: real, end: real) returns (points: nat, d: Detection)
      requires windowMin > 0 && Finishes(start, end, Overlap(windowMin))
      ensures points == |Collected(history, start, end, windowMin)|
      ensures d == Findings(history, start, end, windowMin, maxAmount)
    {
      var collected := CollectSamples(history, start, end, windowMin);
      var samples := SortedItems(collected);
      points := |samples|;
      d := DetectWateringEvents(samples, Seconds(windowMin), MIN_DETECTED_WATERING_G, maxAmount);
      d := Restricted(d, start, end);
    }

    /** Upserts the events one by one and counts the new rows. */
    method StoreEvents(device: DeviceId, events: seq<WateringEvent>, clock: nat -> real) returns (created: nat)
      modifies store
      ensures store.rows == Pass(old(store.rows), device, events, Times(clock, 2, |events|))
      ensures created <= |events| && |store.rows| == |old(store.rows)| + created
    {
      ghost var times := Times(clock, 2, |events|);
      created := 0;
      var i := 0;
      while i < |events|
        invariant i <= |events| && created <= i && |store.rows| == |old(store.rows)| + created
        invariant Pass(store.rows, device, events[i..], times[i..]) == Pass(old(store.rows), device, events, times)
      {
        assert events[i..][1..] == events[i + 1..] && times[i..][1..] == times[i + 1..];
        var _, wasCreated := store.UpsertDetected(device, events[i], clock(i + 2));
        created := created + if wasCreated then 1 else 0;
        i := i + 1;
      }
    }
  }

  // ----- rescans -----

  lemma {:induction false} WithinInOrder(es: seq<WateringEvent>, start: real, end: real)
    requires InOrder(es)
    ensures InOrder(Within(es, start, end))
  {
    if es != [] {
      var e, rest := es[0], Within(es[1..], start, end);
      WithinInOrder(es[1..], start, end);
      forall k | 0 <= k < |rest|
        ensures e.occurredAt <= rest[k].startAt
      {
        assert rest[k] in es[1..];
      }
      OrderedCons(e, rest, e.startAt, e.occurredAt);
    }
  }

  /** Whatever the history holds, a scan finds waterings in order, each over the threshold and within the range. */
  lemma FindingsAreInOrder(history: History, start: real, end: real, windowMin: nat, maxAmount: real)
    ensures var d := Findings(history, start, end, windowMin, maxAmount);
      d.Detected? ==> (
        && InOrder(d.events)
        && forall e :: e in d.events ==> start <= e.occurredAt <= end && e.amount >= 50.0)
  {
    var items := SortedItems(Collected(history, start, end, windowMin));
    var d := Detect(items, Seconds(windowMin), MIN_DETECTED_WATERING_G, maxAmount);
    DetectionsAreInOrder(items, Seconds(windowMin), MIN_DETECTED_WATERING_G, maxAmount);
    if d.Detected? { WithinInOrder(d.events, start, end); }
  }

  /** Scanning the same range again and again: from the third scan on nothing changes. */
  lemma RescansConverge(rows: seq<Row>, device: DeviceId, history: History, start: real, end: real,
                        windowMin: nat, maxAmount: real, first: nat -> real, second: nat -> real, third: nat -> real)
    requires WellFormed(rows) && Findings(history, start, end, windowMin, maxAmount).Detected?
    ensures var es := Findings(history, start, end, windowMin, maxAmount).events; var n := |es| + 2;
      var once := Scan(rows, device, es, maxAmount, Times(first, 0, n));
      var twice := Scan(once, device, es, maxAmount, Times(second, 0, n));
      WellFormed(once) && Scan(twice, device, es, maxAmount, Times(third, 0, n)) == twice
  {
    FindingsAreInOrder(history, start, end, windowMin, maxAmount);
    var es := Findings(history, start, end, windowMin, maxAmount).events;
    var n := |es| + 2;
    RescanOnlyTidies(rows, device, es, maxAmount, Times(first, 0, n), Times(second, 0, n));
    TwoScansConverge(rows, device, es, maxAmount, Times(first, 0, n), Times(second, 0, n), Times(third, 0, n));
  }

  // ----- a jump over the limit -----

  /** The scale shows 300 g, and a minute later 1500 g. */
  const JUMP: History := map[0 := 300.0, 60 := 1500.0]

  const JUMP_EVENT := WateringEvent(0.0, 60.0, 300.0, 1500.0, 1200.0)

  lemma JumpKeys()
    ensures SortedKeys(JUMP.Keys) == [0, 60]
  {
    var keys := SortedKeys(JUMP.Keys);
    assert JUMP.Keys == {0, 60};
    assert |keys| == 2 && keys[0] in keys && keys[1] in keys;
  }

  lemma TwoItems(m: History, a: int, b: int)
    requires a in m && b in m && SortedKeys(m.Keys) == [a, b]
    ensures SortedItems(m) == [Sample(a as real, m[a]), Sample(b as real, m[b])]
  {
  }

  lemma JumpCollected()
    ensures Collected(JUMP, 0.0, 120.0, 5) == JUMP
  {
    assert Overlap(5) == 3000.0 && FloorMinute(-3000.0) == -3000 && FloorMinute(120.0) == 120;
  }

  lemma JumpIsDetected(s: seq<Sample>)
    requires s == [Sample(0.0, 300.0), Sample(60.0, 1500.0)]
    ensures EventsIn(s, 300.0, 50.0) == [JUMP_EVENT]
  {
    assert Rises(s, 1) && WindowStop(s, 2, 360.0) == 2 && PeakOf(s, 1, 2) == 1;
    assert EventOf(s, Window(1, 2)) == JUMP_EVENT;
    assert EventsFrom(s, 2, 300.0, 50.0) == [];
  }

  lemma WithinOne(e: WateringEvent, start: real, end: real)
    requires start <= e.occurredAt <= end
    ensures Within([e], start, end) == [e]
  {
    assert [e][1..] == [];
  }

  lemma JumpIsFound()
    ensures Findings(JUMP, 0.0, 120.0, 5, 1000.0) == Detected([JUMP_EVENT])
  {
    JumpCollected();
    JumpKeys();
    TwoItems(JUMP, 0, 60);
    var s := [Sample(0.0, 300.0), Sample(60.0, 1500.0)];
    DetectInSorted(s, 300.0, 50.0, 1000.0);
    JumpIsDetected(s);
    WithinOne(JUMP_EVENT, 0.0, 120.0);
  }

  /** A first watering over the limit is valid after the scan that finds it. */
  lemma FirstOverLimit(device: DeviceId, e: WateringEvent, maxAmount: real, times: seq<real>)
    requires e.amount > maxAmount && e.startAt < e.occurredAt && |times| == 3
    ensures !NoneAbove(Scan([], device, [e], maxAmount, times), device, maxAmount)
  {
    assert Tidy([], device, maxAmount, times[0], times[1]) == [];
    assert !AccountedFor([], device, [e], 0);
    OverLimitShownExactlyWhen([], device, [e], maxAmount, times, times);
  }

  /** One scan is not enough: with a limit of 1000 g the jump is found, and valid after the first scan. */
  lemma OneScanIsNotEnough(clock: nat -> real)
    ensures Findings(JUMP, 0.0, 120.0, 5, 1000.0) == Detected([JUMP_EVENT])
    ensures !NoneAbove(Scan([], "plant", [JUMP_EVENT], 1000.0, Times(clock, 0, 3)), "plant", 1000.0)
  {
    JumpIsFound();
    FirstOverLimit("plant", JUMP_EVENT, 1000.0, Times(clock, 0, 3));
  }
}
