/** The table of detected waterings: one row per event, in the order of the ids. */
module EventStore {
  import opened WateringDetection

  type DeviceId = string

  datatype Row = Row(
    id: nat, device: DeviceId, startAt: real, occurredAt: real, before: real, after: real, amount: real,
    fertilized: bool, invalid: bool, detectedAt: real, updatedAt: real)

  predicate SameStart(r: Row, device: DeviceId, e: WateringEvent) {
    r.device == device && r.startAt == e.startAt
  }

  predicate SamePeak(r: Row, device: DeviceId, e: WateringEvent) {
    r.device == device && r.occurredAt == e.occurredAt && r.after == e.after
  }

  /** The first row that starts with the event, or the length when there is none. */
  function FindStart(rows: seq<Row>, device: DeviceId, e: WateringEvent): (k: nat)
    ensures k <= |rows| && (k < |rows| ==> SameStart(rows[k], device, e))
    ensures forall j :: 0 <= j < k ==> !SameStart(rows[j], device, e)
  {
    if rows == [] || SameStart(rows[0], device, e) then 0
    else 1 + FindStart(rows[1..], device, e)
  }

  /** The first row with the peak of the event, or the length when there is none. */
  function FindPeak(rows: seq<Row>, device: DeviceId, e: WateringEvent): (k: nat)
    ensures k <= |rows| && (k < |rows| ==> SamePeak(rows[k], device, e))
    ensures forall j :: 0 <= j < k ==> !SamePeak(rows[j], device, e)
  {
    if rows == [] || SamePeak(rows[0], device, e) then 0
    else 1 + FindPeak(rows[1..], device, e)
  }

  function NextId(rows: seq<Row>): nat { if rows == [] then 1 else rows[|rows| - 1].id + 1 }

  function NewRow(id: nat, device: DeviceId, e: WateringEvent, now: real): Row {
    Row(id, device, e.startAt, e.occurredAt, e.before, e.after, e.amount, false, false, now, now)
  }

  /** A row whose watering turned out to be larger than first seen. */
  function Enlarged(r: Row, e: WateringEvent, now: real): Row {
    r.(occurredAt := e.occurredAt, after := e.after, amount := e.amount, updatedAt := now)
  }

  function Upsert(rows: seq<Row>, device: DeviceId, e: WateringEvent, now: real): seq<Row> {
    var k := FindStart(rows, device, e);
    if k < |rows| then
      if !rows[k].invalid && e.amount > rows[k].amount then rows[k := Enlarged(rows[k], e, now)] else rows
    else if FindPeak(rows, device, e) < |rows| then rows
    else rows + [NewRow(NextId(rows), device, e, now)]
  }

  // ----- what an upsert leaves -----

  /** The row shows the event, as it was found, and is listed. */
  predicate Shows(r: Row, device: DeviceId, e: WateringEvent, now: real) {
    && r.device == device && r.startAt == e.startAt && r.occurredAt == e.occurredAt
    && r.before == e.before && r.after == e.after && r.amount == e.amount && !r.invalid && r.updatedAt == now
  }

  /** Row `k` is the oldest one of the device with the start of the event, or else the oldest with its peak. */
  predicate Matched(rows: seq<Row>, k: nat, device: DeviceId, e: WateringEvent)
    requires k < |rows|
  {
    && rows[k].device == device
    && if rows[k].startAt == e.startAt then
         forall j :: 0 <= j < k && rows[j].device == device ==> rows[j].startAt != e.startAt
       else
         && rows[k].occurredAt == e.occurredAt && rows[k].after == e.after
         && (forall j :: 0 <= j < |rows| && rows[j].device == device ==> rows[j].startAt != e.startAt)
         && forall j :: 0 <= j < k && rows[j].device == device ==>
              !(rows[j].occurredAt == e.occurredAt && rows[j].after == e.after)
  }

  /** A listed row with the start of a larger event takes its peak and its amount, and keeps what it began with;
      any other row stays as it is. */
  predicate Met(r: Row, later: Row, e: WateringEvent, now: real) {
    if r.startAt == e.startAt && !r.invalid && e.amount > r.amount then
      && later.id == r.id && later.device == r.device && later.startAt == r.startAt && later.before == r.before
      && later.fertilized == r.fertilized && !later.invalid && later.detectedAt == r.detectedAt
      && later.occurredAt == e.occurredAt && later.after == e.after && later.amount == e.amount && later.updatedAt == now
    else later == r
  }

  lemma MatchFound(rows: seq<Row>, device: DeviceId, e: WateringEvent, now: real)
    ensures var k := FindStart(rows, device, e); k < |rows| ==>
      Matched(rows, k, device, e) && Met(rows[k], Upsert(rows, device, e, now)[k], e, now)
    ensures var k := FindPeak(rows, device, e); FindStart(rows, device, e) == |rows| && k < |rows| ==>
      Matched(rows, k, device, e) && Met(rows[k], rows[k], e, now)
    ensures FindStart(rows, device, e) == FindPeak(rows, device, e) == |rows| <==>
      forall k :: 0 <= k < |rows| && rows[k].device == device ==>
        rows[k].startAt != e.startAt && !(rows[k].occurredAt == e.occurredAt && rows[k].after == e.after)
  {
    forall k | 0 <= k < |rows|
      ensures SameStart(rows[k], device, e) <==> rows[k].device == device && rows[k].startAt == e.startAt
      ensures SamePeak(rows[k], device, e) <==>
        rows[k].device == device && rows[k].occurredAt == e.occurredAt && rows[k].after == e.after
    {
    }
  }

  function Invalidated(r: Row, now: real): Row { r.(invalid := true, updatedAt := now) }

  // ----- the bulk updates -----

  predicate IsRow(r: Row, device: DeviceId, id: nat) { r.id == id && r.device == device && !r.invalid }

  predicate IsAbove(r: Row, device: DeviceId, maxAmount: real) {
    r.device == device && !r.invalid && r.amount > maxAmount
  }

  predicate IsInside(r: Row, device: DeviceId, start: real, end: real, below: real) {
    r.device == device && !r.invalid && start < r.occurredAt < end && r.amount < below
  }

  /** Two rows hold the same measurement. */
  predicate Twins(a: Row, b: Row) {
    a.device == b.device && a.occurredAt == b.occurredAt && a.before == b.before && a.after == b.after
  }

  /** An older row holds the same measurement as row `k`. */
  predicate IsCopy(rows: seq<Row>, k: nat)
    requires k < |rows|
  {
    exists j :: 0 <= j < k && Twins(rows[j], rows[k])
  }

  function MarkRow(rows: seq<Row>, device: DeviceId, id: nat, now: real): seq<Row> {
    seq(|rows|, k requires 0 <= k < |rows| => if IsRow(rows[k], device, id) then Invalidated(rows[k], now) else rows[k])
  }

  function MarkAbove(rows: seq<Row>, device: DeviceId, maxAmount: real, now: real): seq<Row> {
    seq(|rows|, k requires 0 <= k < |rows| => if IsAbove(rows[k], device, maxAmount) then Invalidated(rows[k], now) else rows[k])
  }

  function MarkInside(rows: seq<Row>, device: DeviceId, start: real, end: real, below: real, now: real): seq<Row> {
    seq(|rows|, k requires 0 <= k < |rows| =>
      if IsInside(rows[k], device, start, end, below) then Invalidated(rows[k], now) else rows[k])
  }

  function MarkCopies(rows: seq<Row>, device: DeviceId, now: real): seq<Row> {
    seq(|rows|, k requires 0 <= k < |rows| =>
      if rows[k].device == device && !rows[k].invalid && IsCopy(rows, k) then Invalidated(rows[k], now) else rows[k])
  }

  function Fertilize(rows: seq<Row>, device: DeviceId, id: nat, fertilized: bool, now: real): seq<Row> {
    seq(|rows|, k requires 0 <= k < |rows| =>
      if IsRow(rows[k], device, id) then rows[k].(fertilized := fertilized, updatedAt := now) else rows[k])
  }

  /** How many rows an update changed. */
  function Changed(before: seq<Row>, after: seq<Row>): nat
    requires |before| == |after|
  {
    if before == [] then 0
    else (if before[0] != after[0] then 1 else 0) + Changed(before[1..], after[1..])
  }

  /** Updating one more row counts one more. */
  lemma {:induction false} ChangedStep(before: seq<Row>, after: seq<Row>, k: nat, r: Row)
    requires |before| == |after| && k < |before| && after[k] == before[k] && r != before[k]
    ensures Changed(before, after[k := r]) == Changed(before, after) + 1
  {
    if k == 0 {
      assert after[0 := r][1..] == after[1..];
    } else {
      assert after[k := r][1..] == after[1..][k - 1 := r];
      ChangedStep(before[1..], after[1..], k - 1, r);
    }
  }

  lemma {:induction false} ChangedNothing(rows: seq<Row>)
    ensures Changed(rows, rows) == 0
  {
    if rows != [] { ChangedNothing(rows[1..]); }
  }

  // ----- what clients see -----

  predicate Visible(r: Row, device: DeviceId) { r.device == device && !r.invalid }

  /** The ids of the waterings that are listed for a device. */
  function VisibleIds(rows: seq<Row>, device: DeviceId): set<nat> {
    set k | 0 <= k < |rows| && Visible(rows[k], device) :: rows[k].id
  }

  // ----- the store -----

  datatype Measurement = Measurement(occurredAt: real, before: real, after: real)

  function MeasurementOf(r: Row): Measurement { Measurement(r.occurredAt, r.before, r.after) }

  /** The positions below `n` of the rows of the device with this measurement, oldest first. */
  function Group(rows: seq<Row>, n: nat, device: DeviceId, m: Measurement): (g: seq<nat>)
    requires n <= |rows|
    ensures forall k: nat :: k in g <==> k < n && rows[k].device == device && MeasurementOf(rows[k]) == m
    ensures forall a, b :: 0 <= a < b < |g| ==> g[a] < g[b]
  {
    if n == 0 then []
    else
      var g := Group(rows, n - 1, device, m);
      assert forall a :: 0 <= a < |g| ==> g[a] in g;
      if rows[n - 1].device == device && MeasurementOf(rows[n - 1]) == m then g + [n - 1] else g
  }

  lemma CopyInGroup(rows: seq<Row>, device: DeviceId, k: nat)
    requires k < |rows| && rows[k].device == device
    ensures var g := Group(rows, |rows|, device, MeasurementOf(rows[k]));
      |g| > 0 && k in g && (IsCopy(rows, k) <==> k in g[1..])
  {
    var g := Group(rows, |rows|, device, MeasurementOf(rows[k]));
    var p :| 0 <= p < |g| && g[p] == k;
    if p > 0 {
      assert k == g[1..][p - 1];
      assert g[0] in g && Twins(rows[g[0]], rows[k]);
    } else {
      assert forall j: nat :: j in g ==> k <= j;
      assert forall j :: 0 <= j < k && Twins(rows[j], rows[k]) ==> j in g;
    }
  }

  /** Row `k` is one of the later copies, and its measurement is no longer pending. */
  ghost predicate Settled(rows: seq<Row>, k: nat, device: DeviceId, pending: set<Measurement>)
    requires k < |rows|
  {
    rows[k].device == device && !rows[k].invalid && IsCopy(rows, k) && MeasurementOf(rows[k]) !in pending
  }

  /** Row `k` is among the copies `1..d` of its group. */
  ghost predicate Reached(rows: seq<Row>, k: nat, duplicates: seq<nat>, d: nat)
    requires k < |rows|
  {
    !rows[k].invalid && exists p :: 1 <= p < d && p < |duplicates| && duplicates[p] == k
  }

  lemma GroupSettled(rows: seq<Row>, device: DeviceId, pending: set<Measurement>, m: Measurement)
    requires m in pending
    ensures forall k: nat :: k < |rows| ==> var g := Group(rows, |rows|, device, m);
      (Settled(rows, k, device, pending - {m}) <==> Settled(rows, k, device, pending) || Reached(rows, k, g, |g|))
  {
    var g := Group(rows, |rows|, device, m);
    forall k: nat | k < |rows|
      ensures Settled(rows, k, device, pending - {m}) <==> Settled(rows, k, device, pending) || Reached(rows, k, g, |g|)
    {
      if k in g { CopyInGroup(rows, device, k); }
    }
  }

  /** `grouped` holds the positions of the device's first `n` rows by measurement. */
  ghost predicate Grouped(grouped: map<Measurement, seq<nat>>, rows: seq<Row>, n: nat, device: DeviceId)
    requires n <= |rows|
  {
    && (forall m :: m in grouped ==> grouped[m] == Group(rows, n, device, m))
    && (forall m :: m !in grouped ==> Group(rows, n, device, m) == [])
  }

  lemma ListedExactlyWhen(rows: seq<Row>, device: DeviceId, id: nat)
    ensures (exists r :: r in rows && IsRow(r, device, id)) <==> id in VisibleIds(rows, device)
  {
    if r :| r in rows && IsRow(r, device, id) {
      var k :| 0 <= k < |rows| && rows[k] == r;
      assert Visible(rows[k], device);
    }
    if id in VisibleIds(rows, device) {
      var k :| 0 <= k < |rows| && Visible(rows[k], device) && rows[k].id == id;
      assert rows[k] in rows && IsRow(rows[k], device, id);
    }
  }

  lemma MarkRowHides(rows: seq<Row>, device: DeviceId, id: nat, now: real)
    ensures VisibleIds(MarkRow(rows, device, id, now), device) == VisibleIds(rows, device) - {id}
  {
    var after := MarkRow(rows, device, id, now);
    forall i | i in VisibleIds(rows, device) - {id}
      ensures i in VisibleIds(after, device)
    {
      var k :| 0 <= k < |rows| && Visible(rows[k], device) && rows[k].id == i;
      assert Visible(after[k], device) && after[k].id == i;
    }
  }

  class PlantWateringEventStore {
    var rows: seq<Row>

    constructor ()
      ensures rows == []
    {
      rows := [];
    }

    method UpsertDetected(device: DeviceId, e: WateringEvent, now: real) returns (row: Row, created: bool)
      modifies this
      ensures rows == Upsert(old(rows), device, e, now) && row in rows
      // a new row exactly when no row of the device has the start or the peak of the event
      ensures created <==> forall k :: 0 <= k < |old(rows)| && old(rows)[k].device == device ==>
        old(rows)[k].startAt != e.startAt && !(old(rows)[k].occurredAt == e.occurredAt && old(rows)[k].after == e.after)
      ensures created ==> rows == old(rows) + [row] && Shows(row, device, e, now) && row.detectedAt == now && !row.fertilized
      // otherwise the oldest row with the start, which may have grown, or else the oldest with the peak, as it was
      ensures !created ==> |rows| == |old(rows)| && exists k ::
        0 <= k < |rows| && row == rows[k] && Matched(old(rows), k, device, e) && Met(old(rows)[k], row, e, now)
        && forall j :: 0 <= j < |rows| && j != k ==> rows[j] == old(rows)[j]
    {
      var k := FindStart(rows, device, e);
      var matchedByStart := k < |rows|;
      MatchFound(rows, device, e, now);
      if !matchedByStart {
        k := FindPeak(rows, device, e);
      }
      created := k == |rows|;
      if created {
        row := NewRow(NextId(rows), device, e, now);
        rows := rows + [row];
      } else {
        if matchedByStart && !rows[k].invalid && e.amount > rows[k].amount {
          rows := rows[k := Enlarged(rows[k], e, now)];
        }
        row := rows[k];
      }
    }

    method Invalidate(device: DeviceId, id: nat, now: real) returns (done: bool)
      modifies this
      ensures rows == MarkRow(old(rows), device, id, now)
      ensures done <==> id in VisibleIds(old(rows), device)
      ensures VisibleIds(rows, device) == VisibleIds(old(rows), device) - {id}
    {
      done := exists r :: r in rows && IsRow(r, device, id);
      ListedExactlyWhen(rows, device, id);
      MarkRowHides(rows, device, id, now);
      rows := MarkRow(rows, device, id, now);
    }

    method SetFertilized(device: DeviceId, id: nat, fertilized: bool, now: real) returns (done: bool)
      modifies this
      ensures rows == Fertilize(old(rows), device, id, fertilized, now)
      ensures done <==> id in VisibleIds(old(rows), device)
    {
      done := exists r :: r in rows && IsRow(r, device, id);
      ListedExactlyWhen(rows, device, id);
      rows := Fertilize(rows, device, id, fertilized, now);
    }

    method InvalidateAboveAmount(device: DeviceId, maxAmount: real, now: real) returns (changed: nat)
      modifies this
      ensures rows == MarkAbove(old(rows), device, maxAmount, now)
      ensures changed == Changed(old(rows), rows)
    {
      var marked := MarkAbove(rows, device, maxAmount, now);
      changed := Changed(rows, marked);
      rows := marked;
    }

    method InvalidateEventsInside(device: DeviceId, start: real, end: real, below: real, now: real)
      returns (changed: nat)
      modifies this
      ensures rows == MarkInside(old(rows), device, start, end, below, now)
      ensures changed == Changed(old(rows), rows)
    {
      var marked := MarkInside(rows, device, start, end, below, now);
      changed := Changed(rows, marked);
      rows := marked;
    }

    /** The positions of the device's rows, by measurement. */
    method GroupRows(device: DeviceId) returns (grouped: map<Measurement, seq<nat>>)
      ensures Grouped(grouped, rows, |rows|, device)
    {
      grouped := map[];
      var i := 0;
      while i < |rows|
        invariant i <= |rows| && Grouped(grouped, rows, i, device)
      {
        var row := rows[i];
        if row.device == device {
          var m := MeasurementOf(row);
          if m !in grouped {
            grouped := grouped[m := []];
          }
          grouped := grouped[m := grouped[m] + [i]];
        }
        i := i + 1;
      }
    }

    /** Invalidates every row of one group but the oldest, and counts on from `count`; `was` are the rows
        before the first group. */
    method InvalidateCopies(duplicates: seq<nat>, now: real, count: nat, ghost was: seq<Row>) returns (changed: nat)
      requires |was| == |rows| && count == Changed(was, rows)
      requires forall k: nat :: k in duplicates ==> k < |rows| && rows[k] == was[k]
      requires forall a, b :: 0 <= a < b < |duplicates| ==> duplicates[a] < duplicates[b]
      modifies this
      ensures |was| == |rows| && changed == Changed(was, rows)
      ensures forall k: nat :: k < |was| ==>
        rows[k] == if Reached(was, k, duplicates, |duplicates|) then Invalidated(was[k], now) else old(rows)[k]
    {
      changed := count;
      var d := 1;
      while d < |duplicates|
        invariant 1 <= d && |rows| == |was| && changed == Changed(was, rows)
        invariant forall k: nat :: k < |was| ==>
          rows[k] == if Reached(was, k, duplicates, d) then Invalidated(was[k], now) else old(rows)[k]
      {
        var p := duplicates[d];
        assert p in duplicates;
        if !rows[p].invalid {
          ChangedStep(was, rows, p, Invalidated(rows[p], now));
          rows := rows[p := Invalidated(rows[p], now)];
          changed := changed + 1;
        }
        d := d + 1;
      }
    }

    method InvalidateExactDuplicates(device: DeviceId, now: real) returns (changed: nat)
      modifies this
      ensures rows == MarkCopies(old(rows), device, now)
      ensures changed == Changed(old(rows), rows)
    {
      ghost var was := rows;
      var grouped := GroupRows(device);
      var pending := grouped.Keys;
      changed := 0;
      ChangedNothing(rows);
      forall k: nat | k < |was| && was[k].device == device
        ensures MeasurementOf(was[k]) in grouped
      {
        CopyInGroup(was, device, k);
      }
      while pending != {}
        invariant pending <= grouped.Keys && |rows| == |was| && changed == Changed(was, rows)
        invariant forall k: nat :: k < |was| ==>
          rows[k] == if Settled(was, k, device, pending) then Invalidated(was[k], now) else was[k]
      {
        var m :| m in pending;
        changed := InvalidateCopies(grouped[m], now, changed, was);
        GroupSettled(was, device, pending, m);
        pending := pending - {m};
      }
    }
  }
}
