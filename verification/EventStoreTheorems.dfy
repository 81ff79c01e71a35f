/** What rescans may and may not do to stored waterings. */
module EventStoreTheorems {
  import opened WateringDetection
  import opened EventStore

  // ----- one pass of upserts -----

  predicate UniqueStarts(rows: seq<Row>) {
    forall j, k :: 0 <= j < k < |rows| && rows[j].device == rows[k].device ==> rows[j].startAt != rows[k].startAt
  }

  /** Every stored watering starts before its peak. */
  predicate StartsBeforePeak(rows: seq<Row>) {
    forall k :: 0 <= k < |rows| ==> rows[k].startAt < rows[k].occurredAt
  }

  /** The table as the detector keeps it. */
  predicate WellFormed(rows: seq<Row>) { UniqueStarts(rows) && StartsBeforePeak(rows) }

  /** The upserts of one scan, each at its own time. */
  function Pass(rows: seq<Row>, device: DeviceId, es: seq<WateringEvent>, times: seq<real>): seq<Row>
    requires |times| == |es|
    decreases |es|
  {
    if es == [] then rows
    else Pass(Upsert(rows, device, es[0], times[0]), device, es[1..], times[1..])
  }

  /** What a row may become: its start, its baseline and its identity stay, its amount only grows, and
      once invalid it never changes again. */
  predicate Evolves(a: Row, b: Row) {
    && b.id == a.id && b.device == a.device && b.startAt == a.startAt && b.before == a.before && b.detectedAt == a.detectedAt
    && a.amount <= b.amount && (a.invalid ==> b == a)
  }

  predicate RowsEvolve(rows: seq<Row>, later: seq<Row>) {
    |rows| <= |later| && forall k :: 0 <= k < |rows| ==> Evolves(rows[k], later[k])
  }

  lemma EvolutionsChain(a: seq<Row>, b: seq<Row>, c: seq<Row>)
    requires RowsEvolve(a, b) && RowsEvolve(b, c)
    ensures RowsEvolve(a, c)
  {
    forall k | 0 <= k < |a|
      ensures Evolves(a[k], c[k])
    {
      assert Evolves(b[k], c[k]);
    }
  }

  /** Some row already accounts for the event: one with its start that will not grow, or else one with its peak. */
  ghost predicate Satisfied(rows: seq<Row>, device: DeviceId, e: WateringEvent) {
    || (exists k :: 0 <= k < |rows| && SameStart(rows[k], device, e) && (rows[k].invalid || e.amount <= rows[k].amount))
    || ((exists k :: 0 <= k < |rows| && SamePeak(rows[k], device, e))
        && forall k :: 0 <= k < |rows| ==> !SameStart(rows[k], device, e))
  }

  /** An upsert changes nothing exactly when the event is already accounted for. */
  lemma UpsertIdleExactlyWhen(rows: seq<Row>, device: DeviceId, e: WateringEvent, now: real)
    requires UniqueStarts(rows)
    ensures Upsert(rows, device, e, now) == rows <==> Satisfied(rows, device, e)
  {
    var k, p := FindStart(rows, device, e), FindPeak(rows, device, e);
    if k < |rows| {
      assert SameStart(rows[k], device, e);
    } else if p < |rows| {
      assert SamePeak(rows[p], device, e);
    }
  }

  lemma UpsertSatisfies(rows: seq<Row>, device: DeviceId, e: WateringEvent, now: real)
    requires UniqueStarts(rows)
    ensures Satisfied(Upsert(rows, device, e, now), device, e)
  {
    var k, p := FindStart(rows, device, e), FindPeak(rows, device, e);
    var after := Upsert(rows, device, e, now);
    if k < |rows| {
      assert SameStart(after[k], device, e);
    } else if p < |rows| {
      assert SamePeak(after[p], device, e);
    } else {
      assert SameStart(after[|rows|], device, e);
    }
  }

  lemma UpsertKeepsWellFormed(rows: seq<Row>, device: DeviceId, e: WateringEvent, now: real)
    requires UniqueStarts(rows)
    ensures UniqueStarts(Upsert(rows, device, e, now)) && RowsEvolve(rows, Upsert(rows, device, e, now))
    ensures WellFormed(rows) && e.startAt < e.occurredAt ==> WellFormed(Upsert(rows, device, e, now))
  {
  }

  /** A later event of the same scan never unsettles an earlier one. */
  lemma UpsertKeepsSatisfied(rows: seq<Row>, device: DeviceId, e: WateringEvent, later: WateringEvent, now: real)
    requires WellFormed(rows) && Satisfied(rows, device, e)
    requires e.startAt < e.occurredAt <= later.startAt
    ensures Satisfied(Upsert(rows, device, later, now), device, e)
  {
    var after := Upsert(rows, device, later, now);
    if k :| 0 <= k < |rows| && SameStart(rows[k], device, e) && (rows[k].invalid || e.amount <= rows[k].amount) {
      assert SameStart(after[k], device, e) && after[k] == rows[k];
    } else {
      var p :| 0 <= p < |rows| && SamePeak(rows[p], device, e);
      assert SamePeak(after[p], device, e) && after[p] == rows[p];
    }
  }

  ghost predicate AllSatisfied(rows: seq<Row>, device: DeviceId, es: seq<WateringEvent>) {
    forall e :: e in es ==> Satisfied(rows, device, e)
  }

  lemma {:induction false} PassKeepsWellFormed(rows: seq<Row>, device: DeviceId, es: seq<WateringEvent>, times: seq<real>)
    requires |times| == |es| && UniqueStarts(rows)
    ensures UniqueStarts(Pass(rows, device, es, times)) && RowsEvolve(rows, Pass(rows, device, es, times))
    ensures WellFormed(rows) && InOrder(es) ==> WellFormed(Pass(rows, device, es, times))
    decreases |es|
  {
    if es != [] {
      var next := Upsert(rows, device, es[0], times[0]);
      UpsertKeepsWellFormed(rows, device, es[0], times[0]);
      PassKeepsWellFormed(next, device, es[1..], times[1..]);
      EvolutionsChain(rows, next, Pass(next, device, es[1..], times[1..]));
    }
  }

  lemma {:induction false} PassKeepsSatisfied(rows: seq<Row>, device: DeviceId, es: seq<WateringEvent>,
                                              times: seq<real>, e: WateringEvent)
    requires |times| == |es| && WellFormed(rows) && InOrder([e] + es) && Satisfied(rows, device, e)
    ensures Satisfied(Pass(rows, device, es, times), device, e)
    decreases |es|
  {
    if es != [] {
      assert ([e] + es)[1] == es[0] && ([e] + es)[0] == e;
      UpsertKeepsSatisfied(rows, device, e, es[0], times[0]);
      UpsertKeepsWellFormed(rows, device, es[0], times[0]);
      assert InOrder([e] + es[1..]) by { SkipSecond(e, es); }
      PassKeepsSatisfied(Upsert(rows, device, es[0], times[0]), device, es[1..], times[1..], e);
    }
  }

  lemma SkipSecond(e: WateringEvent, es: seq<WateringEvent>)
    requires es != [] && InOrder([e] + es)
    ensures InOrder([e] + es[1..]) && InOrder(es) && InOrder(es[1..])
  {
    var all, fewer := [e] + es, [e] + es[1..];
    assert forall k :: 0 <= k < |es| ==> es[k] == all[k + 1];
    assert forall k :: 0 <= k < |fewer| ==> fewer[k] == if k == 0 then all[0] else all[k + 1];
  }

  /** After a pass every one of its events is accounted for. */
  lemma {:induction false} PassSatisfies(rows: seq<Row>, device: DeviceId, es: seq<WateringEvent>, times: seq<real>)
    requires |times| == |es| && WellFormed(rows) && InOrder(es)
    ensures AllSatisfied(Pass(rows, device, es, times), device, es)
    decreases |es|
  {
    if es != [] {
      var next := Upsert(rows, device, es[0], times[0]);
      UpsertSatisfies(rows, device, es[0], times[0]);
      UpsertKeepsWellFormed(rows, device, es[0], times[0]);
      assert es == [es[0]] + es[1..];
      PassKeepsSatisfied(next, device, es[1..], times[1..], es[0]);
      assert InOrder(es[1..]);
      PassSatisfies(next, device, es[1..], times[1..]);
    }
  }

  lemma {:induction false} SatisfiedPassIsIdle(rows: seq<Row>, device: DeviceId, es: seq<WateringEvent>, times: seq<real>)
    requires |times| == |es| && UniqueStarts(rows) && AllSatisfied(rows, device, es)
    ensures Pass(rows, device, es, times) == rows
    decreases |es|
  {
    if es != [] {
      UpsertIdleExactlyWhen(rows, device, es[0], times[0]);
      SatisfiedPassIsIdle(rows, device, es[1..], times[1..]);
    }
  }

  /** Running the pass again over the same events changes nothing: no new row, no changed field. */
  lemma PassTwice(rows: seq<Row>, device: DeviceId, es: seq<WateringEvent>, times: seq<real>, again: seq<real>)
    requires |times| == |again| == |es| && WellFormed(rows) && InOrder(es)
    ensures var once := Pass(rows, device, es, times);
      WellFormed(once) && Pass(once, device, es, again) == once
  {
    PassKeepsWellFormed(rows, device, es, times);
    PassSatisfies(rows, device, es, times);
    SatisfiedPassIsIdle(Pass(rows, device, es, times), device, es, again);
  }

  // ----- runs of every kind of update -----

  datatype Update =
    | Upserted(device: DeviceId, e: WateringEvent, now: real)
    | Invalidate(device: DeviceId, id: nat, now: real)
    | SetFertilized(device: DeviceId, id: nat, fertilized: bool, now: real)
    | InvalidateAbove(device: DeviceId, maxAmount: real, now: real)
    | InvalidateCopies(device: DeviceId, now: real)
    | InvalidateInside(device: DeviceId, start: real, end: real, below: real, now: real)

  function Step(rows: seq<Row>, u: Update): seq<Row> {
    match u
    case Upserted(device, e, now) => Upsert(rows, device, e, now)
    case Invalidate(device, id, now) => MarkRow(rows, device, id, now)
    case SetFertilized(device, id, fertilized, now) => Fertilize(rows, device, id, fertilized, now)
    case InvalidateAbove(device, maxAmount, now) => MarkAbove(rows, device, maxAmount, now)
    case InvalidateCopies(device, now) => MarkCopies(rows, device, now)
    case InvalidateInside(device, start, end, below, now) => MarkInside(rows, device, start, end, below, now)
  }

  function Run(rows: seq<Row>, us: seq<Update>): seq<Row>
    decreases |us|
  {
    if us == [] then rows else Run(Step(rows, us[0]), us[1..])
  }

  /** Over every run of updates: starts stay unique, no row disappears, no amount shrinks, and an
      invalid row is never touched again, so it can never turn valid. */
  lemma {:induction false} RunRespectsRows(rows: seq<Row>, us: seq<Update>)
    requires UniqueStarts(rows)
    ensures UniqueStarts(Run(rows, us)) && RowsEvolve(rows, Run(rows, us))
    decreases |us|
  {
    if us != [] {
      if us[0].Upserted? { UpsertKeepsWellFormed(rows, us[0].device, us[0].e, us[0].now); }
      RunRespectsRows(Step(rows, us[0]), us[1..]);
      EvolutionsChain(rows, Step(rows, us[0]), Run(rows, us));
    }
  }

  /** The event begins at a row's start, or has the peak of an invalid row. */
  predicate Recalls(r: Row, device: DeviceId, e: WateringEvent) {
    SameStart(r, device, e) || (r.invalid && SamePeak(r, device, e))
  }

  /** No later scan stores such an event a second time, whatever happened in between. */
  lemma NeverStoredAgain(rows: seq<Row>, us: seq<Update>, k: nat, device: DeviceId, e: WateringEvent, now: real)
    requires UniqueStarts(rows) && k < |rows| && Recalls(rows[k], device, e)
    ensures |Upsert(Run(rows, us), device, e, now)| == |Run(rows, us)|
    ensures var after := Upsert(Run(rows, us), device, e, now);
      k < |after| && (rows[k].invalid ==> after[k] == rows[k])
  {
    RunRespectsRows(rows, us);
    var later := Run(rows, us);
    assert Evolves(rows[k], later[k]);
    UpsertKeepsWellFormed(later, device, e, now);
    if SameStart(rows[k], device, e) {
      assert FindStart(later, device, e) <= k;
    } else {
      assert FindPeak(later, device, e) <= k;
    }
    assert Evolves(later[k], Upsert(later, device, e, now)[k]);
  }

  // ----- what the bulk updates mean for clients -----

  /** Ids are handed out in increasing order. */
  predicate IncreasingIds(rows: seq<Row>) {
    forall j, k :: 0 <= j < k < |rows| ==> rows[j].id < rows[k].id
  }

  lemma {:induction false} RunKeepsIds(rows: seq<Row>, us: seq<Update>)
    requires IncreasingIds(rows)
    ensures IncreasingIds(Run(rows, us))
    decreases |us|
  {
    if us != [] { RunKeepsIds(Step(rows, us[0]), us[1..]); }
  }

  /** The rows are the same but for some valid ones of the device that are invalid now. */
  predicate OnlyHides(rows: seq<Row>, after: seq<Row>, device: DeviceId) {
    && |after| == |rows|
    && forall k :: 0 <= k < |rows| ==>
      after[k] == rows[k] || (Visible(rows[k], device) && after[k] == Invalidated(rows[k], after[k].updatedAt))
  }

  lemma VisibleFirst(rows: seq<Row>, device: DeviceId)
    requires rows != [] && IncreasingIds(rows)
    ensures VisibleIds(rows, device) ==
      Only(rows[0].id, Visible(rows[0], device)) + VisibleIds(rows[1..], device)
    ensures rows[0].id !in VisibleIds(rows[1..], device)
  {
    var tail := rows[1..];
    forall i | i in VisibleIds(tail, device)
      ensures i in VisibleIds(rows, device)
    {
      var k :| 0 <= k < |tail| && Visible(tail[k], device) && tail[k].id == i;
      assert rows[k + 1] == tail[k];
    }
    forall i | i in VisibleIds(rows, device)
      ensures (Visible(rows[0], device) && i == rows[0].id) || i in VisibleIds(tail, device)
    {
      var k :| 0 <= k < |rows| && Visible(rows[k], device) && rows[k].id == i;
      assert k > 0 ==> tail[k - 1] == rows[k];
    }
  }

  function Only(x: nat, b: bool): set<nat> { if b then {x} else {} }

  lemma OneMore(a: set<nat>, b: set<nat>, x: nat, was: bool, stays: bool)
    requires b <= a && x !in a && (stays ==> was)
    ensures Only(x, stays) + b <= Only(x, was) + a
    ensures |(Only(x, was) + a) - (Only(x, stays) + b)| == |a - b| + if was && !stays then 1 else 0
  {
    assert (Only(x, was) + a) - (Only(x, stays) + b) == (a - b) + Only(x, was && !stays);
  }

  lemma HiddenFirst(rows: seq<Row>, after: seq<Row>, device: DeviceId)
    requires rows != [] && IncreasingIds(rows) && OnlyHides(rows, after, device)
    requires VisibleIds(after[1..], device) <= VisibleIds(rows[1..], device)
    ensures VisibleIds(after, device) <= VisibleIds(rows, device)
    ensures |VisibleIds(rows, device) - VisibleIds(after, device)|
         == |VisibleIds(rows[1..], device) - VisibleIds(after[1..], device)| + if after[0] != rows[0] then 1 else 0
  {
    SameIds(rows, after, device);
    VisibleFirst(rows, device);
    VisibleFirst(after, device);
    OneMore(VisibleIds(rows[1..], device), VisibleIds(after[1..], device), rows[0].id,
            Visible(rows[0], device), Visible(after[0], device));
  }

  /** The number an update reports is the number of waterings that are no longer listed. */
  lemma {:induction false} CountIsHidden(rows: seq<Row>, after: seq<Row>, device: DeviceId)
    requires IncreasingIds(rows) && OnlyHides(rows, after, device)
    ensures VisibleIds(after, device) <= VisibleIds(rows, device)
    ensures Changed(rows, after) == |VisibleIds(rows, device) - VisibleIds(after, device)|
  {
    if rows == [] {
      assert VisibleIds(rows, device) - VisibleIds(after, device) == {};
    } else {
      CountIsHidden(rows[1..], after[1..], device);
      HiddenFirst(rows, after, device);
    }
  }

  lemma SameIds(rows: seq<Row>, after: seq<Row>, device: DeviceId)
    requires IncreasingIds(rows) && OnlyHides(rows, after, device)
    ensures IncreasingIds(after) && forall k :: 0 <= k < |rows| ==> after[k].id == rows[k].id
  {
  }

  lemma OthersStayVisible(rows: seq<Row>, after: seq<Row>, device: DeviceId)
    requires OnlyHides(rows, after, device)
    ensures forall other :: other != device ==> VisibleIds(after, other) == VisibleIds(rows, other)
  {
    forall other | other != device
      ensures VisibleIds(after, other) == VisibleIds(rows, other)
    {
      assert forall k :: 0 <= k < |rows| ==> (Visible(after[k], other) <==> Visible(rows[k], other)) && after[k].id == rows[k].id;
    }
  }

  /** Deleting a watering takes that one off the device's list and no other off any list; it is reported
      exactly when it was listed, and deleting it again changes nothing. */
  lemma InvalidateHidesOne(rows: seq<Row>, device: DeviceId, id: nat, now: real, later: real)
    requires IncreasingIds(rows)
    ensures var after := MarkRow(rows, device, id, now);
      && VisibleIds(after, device) == VisibleIds(rows, device) - {id}
      && (forall other :: other != device ==> VisibleIds(after, other) == VisibleIds(rows, other))
      && Changed(rows, after) == (if id in VisibleIds(rows, device) then 1 else 0)
      && MarkRow(after, device, id, later) == after
  {
    var after := MarkRow(rows, device, id, now);
    MarkRowHides(rows, device, id, now);
    CountIsHidden(rows, after, device);
    OthersStayVisible(rows, after, device);
    assert VisibleIds(rows, device) - VisibleIds(after, device) == if id in VisibleIds(rows, device) then {id} else {};
  }

  /** After the clean-up the device lists exactly its waterings up to the limit, and the count is that of
      the waterings that went. */
  lemma AboveHidesExactly(rows: seq<Row>, device: DeviceId, maxAmount: real, now: real)
    requires IncreasingIds(rows)
    ensures var after := MarkAbove(rows, device, maxAmount, now);
      && OnlyHides(rows, after, device)
      && (forall k :: 0 <= k < |rows| ==> (Visible(after[k], device) <==> Visible(rows[k], device) && rows[k].amount <= maxAmount))
      && Changed(rows, after) == |VisibleIds(rows, device) - VisibleIds(after, device)|
      && forall other :: other != device ==> VisibleIds(after, other) == VisibleIds(rows, other)
  {
    CountIsHidden(rows, MarkAbove(rows, device, maxAmount, now), device);
    OthersStayVisible(rows, MarkAbove(rows, device, maxAmount, now), device);
  }

  /** The same for smaller waterings strictly within a time range. */
  lemma InsideHidesExactly(rows: seq<Row>, device: DeviceId, start: real, end: real, below: real, now: real)
    requires IncreasingIds(rows)
    ensures var after := MarkInside(rows, device, start, end, below, now);
      && OnlyHides(rows, after, device)
      && (forall k :: 0 <= k < |rows| ==>
        (Visible(after[k], device) <==>
          Visible(rows[k], device) && !(start < rows[k].occurredAt < end && rows[k].amount < below)))
      && Changed(rows, after) == |VisibleIds(rows, device) - VisibleIds(after, device)|
      && forall other :: other != device ==> VisibleIds(after, other) == VisibleIds(rows, other)
  {
    CountIsHidden(rows, MarkInside(rows, device, start, end, below, now), device);
    OthersStayVisible(rows, MarkInside(rows, device, start, end, below, now), device);
  }

  lemma FertilizeKeepsLists(rows: seq<Row>, device: DeviceId, id: nat, fertilized: bool, now: real, d: DeviceId)
    ensures VisibleIds(Fertilize(rows, device, id, fertilized, now), d) == VisibleIds(rows, d)
  {
    var after := Fertilize(rows, device, id, fertilized, now);
    assert forall k :: 0 <= k < |rows| ==> (Visible(after[k], d) <==> Visible(rows[k], d)) && after[k].id == rows[k].id;
  }

  lemma FertilizeTwice(rows: seq<Row>, device: DeviceId, id: nat, first: bool, second: bool, now: real, later: real)
    ensures Fertilize(Fertilize(rows, device, id, first, now), device, id, second, later)
         == Fertilize(rows, device, id, second, later)
  {
  }

  /** Marking a watering as fertilized changes no list; the mark is read back from that watering and from no
      other, and the last mark wins, as if it were the only one. */
  lemma LastMarkWins(rows: seq<Row>, device: DeviceId, id: nat, first: bool, second: bool, now: real, later: real)
    requires IncreasingIds(rows)
    ensures var after := Fertilize(rows, device, id, first, now);
      && (forall d :: VisibleIds(after, d) == VisibleIds(rows, d))
      && (forall k :: 0 <= k < |rows| ==>
            after[k].fertilized == (if Visible(rows[k], device) && rows[k].id == id then first else rows[k].fertilized))
      && Changed(rows, after) <= 1
      && Fertilize(after, device, id, second, later) == Fertilize(rows, device, id, second, later)
  {
    forall d
      ensures VisibleIds(Fertilize(rows, device, id, first, now), d) == VisibleIds(rows, d)
    {
      FertilizeKeepsLists(rows, device, id, first, now, d);
    }
    AtMostOneChanges(rows, Fertilize(rows, device, id, first, now), id);
    FertilizeTwice(rows, device, id, first, second, now, later);
  }

  lemma {:induction false} AtMostOneChanges(rows: seq<Row>, after: seq<Row>, id: nat)
    requires IncreasingIds(rows) && |after| == |rows|
    requires forall k :: 0 <= k < |rows| && after[k] != rows[k] ==> rows[k].id == id
    ensures Changed(rows, after) <= 1
    ensures (forall k :: 0 <= k < |rows| ==> after[k] == rows[k]) ==> Changed(rows, after) == 0
  {
    if rows != [] {
      AtMostOneChanges(rows[1..], after[1..], id);
      if after[0] != rows[0] {
        assert forall k :: 0 <= k < |rows[1..]| ==> rows[1..][k] == rows[k + 1] && after[1..][k] == after[k + 1];
      }
    }
  }
}
