/** The life of one operation: its row status and its append-only list of events.
    Events of other operations never matter, so the event table is kept per operation, in id order;
    it is read in the order of the time stamps, and of the ids among equal ones. */
module OperationLog {
  import opened Options

  datatype Status = Queued | Sending | Accepted | Running | Success | Error | Timeout | Cancelled

  function Rank(s: Status): nat {
    match s
    case Queued => 0
    case Sending => 1
    case Accepted => 2
    case Running => 3
    case _ => 4
  }

  predicate Terminal(s: Status) { Rank(s) == 4 }

  /** A detail text, sorted by what the program looks for in it after stripping and lower-casing:
      "accepted" or "received", "watering_not_active", or anything else. */
  datatype Detail = Ack(text: string) | NotActive(text: string) | Plain(text: string)

  datatype EventType =
    | Created | StatusChanged | CommandPicked | CommandAccepted | CallbackStatus | OperationRunning
    | OperationSucceeded | OperationFailed | OperationTimedOut | OperationCancelled
    | EventIgnored | Traced(name: string)

  predicate IsStatusEvent(t: EventType) { !t.EventIgnored? && !t.Traced? }

  datatype Event = Event(status: Status, detail: Detail, kind: EventType, createdAt: int)

  datatype OperationType =
    WateringStart | Fill | WateringStop | StatisticsCollection | DeviceDiscovery | CallbackProbe | Other(name: string)

  datatype Operation = Operation(kind: OperationType, device: Option<nat>, status: Status, updatedAt: int, events: seq<Event>)

  function NewOperation(kind: OperationType, device: Option<nat>, now: int): Operation {
    Operation(kind, device, Queued, now, [Event(Queued, Plain("operation queued"), Created, now)])
  }

  /** The first row of `order by created_at desc, id desc` among the events that satisfy `p`. */
  function LatestOf(events: seq<Event>, p: Event -> bool): Option<Event> {
    if events == [] then None
    else
      var last := events[|events| - 1];
      var earlier := LatestOf(events[..|events| - 1], p);
      if p(last) && (earlier.None? || earlier.value.createdAt <= last.createdAt) then Some(last) else earlier
  }

  predicate IsError(e: Event) { e.status == Error }

  function LatestError(events: seq<Event>): (e: Option<Event>)
    ensures e.Some? ==> e.value in events && e.value.status == Error
  {
    LatestIsIn(events, IsError);
    LatestOf(events, IsError)
  }

  /** An error that was really an acknowledgement may still be corrected. */
  predicate MisclassifiedAck(op: Operation) {
    op.status == Error && LatestError(op.events).Some? && LatestError(op.events).value.detail.Ack?
  }

  function Append(op: Operation, e: Event): Operation { op.(events := op.events + [e]) }

  function Ignore(op: Operation, now: int): Operation {
    Append(op, Event(op.status, Plain("ignored"), EventIgnored, now))
  }

  /** A failed stop that found nothing to stop is a success. */
  predicate NothingToStop(op: Operation, status: Status, detail: Detail) {
    op.kind == WateringStop && status == Error && detail.NotActive?
  }

  function Record(op: Operation, status: Status, detail: Detail, kind: EventType, now: int): Operation {
    var st := if NothingToStop(op, status, detail) then Success else status;
    var text := if NothingToStop(op, status, detail) then Plain("no active watering") else detail;
    if Terminal(op.status) && !MisclassifiedAck(op) then Ignore(op, now)
    else if Rank(st) < Rank(op.status) then Ignore(op, now)
    else op.(status := st, updatedAt := now, events := op.events + [Event(st, text, kind, now)])
  }

  function Trace(op: Operation, name: string, detail: Detail, now: int): Operation {
    Append(op, Event(op.status, detail, Traced(name), now))
  }

  /** The bulk cancellations only ever reach operations that are not terminal. */
  function Cancel(op: Operation, detail: Detail, now: int): Operation {
    if Terminal(op.status) then op
    else op.(status := Cancelled, updatedAt := now, events := op.events + [Event(Cancelled, detail, OperationCancelled, now)])
  }

  // ----- what clients read -----

  /** The newest row, listed by its time stamp behind all that are not later. */
  function Inserted(listed: seq<Event>, e: Event): (r: seq<Event>)
    ensures |r| == |listed| + 1
  {
    if listed == [] || listed[|listed| - 1].createdAt <= e.createdAt then listed + [e]
    else Inserted(listed[..|listed| - 1], e) + [listed[|listed| - 1]]
  }

  /** The events in the order `created_at, id`. */
  function Listed(events: seq<Event>): seq<Event> {
    if events == [] then [] else Inserted(Listed(events[..|events| - 1]), events[|events| - 1])
  }

  /** The status shown to clients. */
  function ShownStatus(op: Operation): Status {
    var listed := Listed(op.events);
    var terminal := LastTerminal(listed);
    var status := if terminal.Some? then terminal.value else op.status;
    if status == Error && AckErrorSeen(listed) then Accepted else status
  }

  /** The last of the listed events that satisfies `p`. */
  function LastOf(listed: seq<Event>, p: Event -> bool): Option<Event> {
    if listed == [] then None
    else if p(listed[|listed| - 1]) then Some(listed[|listed| - 1])
    else LastOf(listed[..|listed| - 1], p)
  }

  predicate IsEnd(e: Event) { IsStatusEvent(e.kind) && Terminal(e.status) }

  function LastTerminal(events: seq<Event>): Option<Status> {
    var e := LastOf(events, IsEnd);
    if e.Some? then Some(e.value.status) else None
  }

  predicate AckErrorSeen(events: seq<Event>) {
    exists k :: 0 <= k < |events| && IsStatusEvent(events[k].kind) && events[k].status == Error && events[k].detail.Ack?
  }

  // ----- steps and runs -----

  datatype Step =
    | Recorded(status: Status, detail: Detail, kind: EventType, at: int)
    | Noted(name: string, text: string, at: int)
    | Withdrawn(detail: Detail, at: int)

  /** Every caller reports with one of the status event types. */
  predicate Proper(s: Step) { s.Recorded? ==> IsStatusEvent(s.kind) }

  function Apply(op: Operation, s: Step): Operation {
    match s
    case Recorded(status, detail, kind, at) => Record(op, status, detail, kind, at)
    case Noted(name, text, at) => Trace(op, name, Plain(text), at)
    case Withdrawn(detail, at) => Cancel(op, detail, at)
  }

  function Life(op: Operation, steps: seq<Step>): Operation {
    if steps == [] then op else Apply(Life(op, steps[..|steps| - 1]), steps[|steps| - 1])
  }

  /** The clock never runs backwards, from `from` on. */
  predicate Clocked(from: int, steps: seq<Step>) {
    && (forall k :: 0 <= k < |steps| ==> from <= steps[k].at)
    && forall j, k :: 0 <= j < k < |steps| ==> steps[j].at <= steps[k].at
  }

  predicate EventsBefore(op: Operation, now: int) {
    forall k :: 0 <= k < |op.events| ==> op.events[k].createdAt <= now
  }

  // ----- the row and its events -----

  function LastStatus(events: seq<Event>): Option<Status> {
    if events == [] then None
    else
      var last := events[|events| - 1];
      if IsStatusEvent(last.kind) then Some(last.status) else LastStatus(events[..|events| - 1])
  }

  /** The row status is that of the latest status event, and nothing terminal lies behind a row that is not. */
  ghost predicate Consistent(op: Operation) {
    && LastStatus(op.events) == Some(op.status)
    && LastTerminal(op.events) == (if Terminal(op.status) then Some(op.status) else None)
  }

  lemma AppendLasts(events: seq<Event>, e: Event)
    ensures LastStatus(events + [e]) == if IsStatusEvent(e.kind) then Some(e.status) else LastStatus(events)
    ensures LastTerminal(events + [e]) ==
      if IsStatusEvent(e.kind) && Terminal(e.status) then Some(e.status) else LastTerminal(events)
  {
    assert (events + [e])[..|events|] == events;
  }

  lemma StepKeepsConsistent(op: Operation, s: Step)
    requires Consistent(op) && Proper(s)
    ensures Consistent(Apply(op, s))
  {
    var events := Apply(op, s).events;
    if events != op.events {
      assert events == op.events + [events[|op.events|]];
      AppendLasts(op.events, events[|op.events|]);
    }
  }

  lemma {:induction false} RunKeepsConsistent(op: Operation, steps: seq<Step>)
    requires Consistent(op) && forall k :: 0 <= k < |steps| ==> Proper(steps[k])
    ensures Consistent(Life(op, steps))
  {
    if steps != [] {
      var n := |steps| - 1;
      RunKeepsConsistent(op, steps[..n]);
      StepKeepsConsistent(Life(op, steps[..n]), steps[n]);
    }
  }

  lemma NewIsConsistent(kind: OperationType, device: Option<nat>, now: int)
    ensures Consistent(NewOperation(kind, device, now))
  {
    AppendLasts([], Event(Queued, Plain("operation queued"), Created, now));
    assert [] + [Event(Queued, Plain("operation queued"), Created, now)] == NewOperation(kind, device, now).events;
  }

  // ----- the order of the time stamps -----

  predicate Stamped(events: seq<Event>) {
    forall j, k :: 0 <= j < k < |events| ==> events[j].createdAt <= events[k].createdAt
  }

  lemma {:induction false} StampedIsListed(events: seq<Event>)
    requires Stamped(events)
    ensures Listed(events) == events
  {
    if events != [] {
      StampedIsListed(events[..|events| - 1]);
    }
  }

  lemma StampedSnoc(events: seq<Event>, e: Event)
    requires Stamped(events) && forall k :: 0 <= k < |events| ==> events[k].createdAt <= e.createdAt
    ensures Stamped(events + [e])
  {
  }

  lemma StepKeepsStamps(op: Operation, s: Step)
    requires Stamped(op.events) && EventsBefore(op, s.at)
    ensures Stamped(Apply(op, s).events) && EventsBefore(Apply(op, s), s.at)
  {
    var after := Apply(op, s);
    if after.events != op.events {
      StampedSnoc(op.events, after.events[|op.events|]);
    }
  }

  lemma {:induction false} LifeIsStamped(op: Operation, from: int, steps: seq<Step>)
    requires Stamped(op.events) && EventsBefore(op, from) && Clocked(from, steps)
    ensures Stamped(Life(op, steps).events)
    ensures EventsBefore(Life(op, steps), if steps == [] then from else steps[|steps| - 1].at)
  {
    if steps != [] {
      var n := |steps| - 1;
      LifeIsStamped(op, from, steps[..n]);
      assert EventsBefore(Life(op, steps[..n]), steps[n].at);
      StepKeepsStamps(Life(op, steps[..n]), steps[n]);
    }
  }

  /** Over every run of reports, notes and cancellations under a clock that does not run backwards, the
      row has the status of the latest status event that clients read, and they see the row status in
      every state but one: an error with an acknowledgement behind it. */
  lemma ShownStatusIsRowStatus(kind: OperationType, device: Option<nat>, now: int, steps: seq<Step>)
    requires (forall k :: 0 <= k < |steps| ==> Proper(steps[k])) && Clocked(now, steps)
    ensures var op := Life(NewOperation(kind, device, now), steps);
      && Listed(op.events) == op.events && LastStatus(Listed(op.events)) == Some(op.status)
      && (ShownStatus(op) != op.status <==> op.status == Error && AckErrorSeen(op.events))
      && (ShownStatus(op) != op.status ==> ShownStatus(op) == Accepted)
  {
    NewIsConsistent(kind, device, now);
    RunKeepsConsistent(NewOperation(kind, device, now), steps);
    LifeIsStamped(NewOperation(kind, device, now), now, steps);
    StampedIsListed(Life(NewOperation(kind, device, now), steps).events);
  }

  // ----- whatever the stamps -----

  lemma {:induction false} InsertedStamps(listed: seq<Event>, e: Event)
    requires Stamped(listed)
    ensures Stamped(Inserted(listed, e))
    ensures forall x :: x in Inserted(listed, e) <==> x == e || x in listed
  {
    if listed != [] && listed[|listed| - 1].createdAt > e.createdAt {
      var n := |listed| - 1;
      InsertedStamps(listed[..n], e);
      assert listed == listed[..n] + [listed[n]];
      assert forall x :: x in Inserted(listed[..n], e) ==> x.createdAt <= listed[n].createdAt;
      StampedSnoc(Inserted(listed[..n], e), listed[n]);
    }
  }

  lemma {:induction false} LatestIsIn(events: seq<Event>, p: Event -> bool)
    ensures var e := LatestOf(events, p); e.Some? ==> e.value in events && p(e.value)
  {
    if events != [] { LatestIsIn(events[..|events| - 1], p); }
  }

  lemma {:induction false} LastIsIn(listed: seq<Event>, p: Event -> bool)
    ensures var e := LastOf(listed, p); e.Some? ==> e.value in listed && p(e.value)
  {
    if listed != [] { LastIsIn(listed[..|listed| - 1], p); }
  }

  lemma {:induction false} InsertedLast(listed: seq<Event>, e: Event, p: Event -> bool)
    requires Stamped(listed)
    ensures var last := LastOf(listed, p);
      LastOf(Inserted(listed, e), p) ==
        if p(e) && (last.None? || last.value.createdAt <= e.createdAt) then Some(e) else last
  {
    LastIsIn(listed, p);
    if listed == [] || listed[|listed| - 1].createdAt <= e.createdAt {
      assert (listed + [e])[..|listed|] == listed;
    } else {
      var n := |listed| - 1;
      InsertedLast(listed[..n], e, p);
      var r := Inserted(listed[..n], e);
      assert (r + [listed[n]])[..|r|] == r;
    }
  }

  lemma {:induction false} ListedStamps(events: seq<Event>)
    ensures Stamped(Listed(events)) && forall x :: x in Listed(events) <==> x in events
  {
    if events != [] {
      var n := |events| - 1;
      ListedStamps(events[..n]);
      InsertedStamps(Listed(events[..n]), events[n]);
      assert events == events[..n] + [events[n]];
    }
  }

  lemma {:induction false} LatestIsLastListed(events: seq<Event>, p: Event -> bool)
    ensures LatestOf(events, p) == LastOf(Listed(events), p)
  {
    if events != [] {
      var n := |events| - 1;
      LatestIsLastListed(events[..n], p);
      ListedStamps(events[..n]);
      InsertedLast(Listed(events[..n]), events[n], p);
    }
  }

  /** The error that decides about the escape is the last one that clients read, whatever the clock does. */
  lemma LatestErrorIsLastListed(events: seq<Event>)
    ensures LatestError(events) == LastOf(Listed(events), IsError)
  {
    LatestIsLastListed(events, IsError);
  }

  /** Event `k` is the last terminal status event, and event `j` an earlier one with a later stamp. */
  predicate Overtakes(events: seq<Event>, j: nat, k: nat) {
    && j < k < |events| && IsEnd(events[j]) && IsEnd(events[k])
    && (forall m :: k < m < |events| ==> !IsEnd(events[m]))
    && events[k].createdAt < events[j].createdAt
  }

  /** The last terminal status event is stamped before an earlier one. */
  ghost predicate Overtaken(events: seq<Event>) {
    exists j, k :: Overtakes(events, j, k)
  }

  lemma {:induction false} LatestIsMaximal(events: seq<Event>, p: Event -> bool, j: nat)
    requires j < |events| && p(events[j])
    ensures LatestOf(events, p).Some? && events[j].createdAt <= LatestOf(events, p).value.createdAt
  {
    if j < |events| - 1 { LatestIsMaximal(events[..|events| - 1], p, j); }
  }

  lemma {:induction false} LastIsLast(events: seq<Event>) returns (k: nat)
    requires LastOf(events, IsEnd).Some?
    ensures k < |events| && LastOf(events, IsEnd) == Some(events[k]) && IsEnd(events[k])
    ensures forall m :: k < m < |events| ==> !IsEnd(events[m])
  {
    k := |events| - 1;
    if !IsEnd(events[k]) { k := LastIsLast(events[..k]); }
  }

  lemma {:induction false} LastIsNone(events: seq<Event>)
    ensures LastOf(events, IsEnd).None? <==> forall m :: 0 <= m < |events| ==> !IsEnd(events[m])
  {
    if events != [] { LastIsNone(events[..|events| - 1]); }
  }

  /** Unless it is overtaken, the last terminal status event is also the last one in the order of the stamps. */
  lemma {:induction false} LatestUnlessOvertaken(events: seq<Event>, k: nat)
    requires k < |events| && IsEnd(events[k]) && forall m :: k < m < |events| ==> !IsEnd(events[m])
    ensures !Overtaken(events) ==> LatestOf(events, IsEnd) == Some(events[k])
    ensures Overtaken(events) ==> exists j: nat :: j < k && IsEnd(events[j]) && LatestOf(events, IsEnd) == Some(events[j])
  {
    var n := |events| - 1;
    if k < n {
      OvertakenBefore(events);
      LatestUnlessOvertaken(events[..n], k);
      if Overtaken(events) {
        var j: nat :| j < k && IsEnd(events[..n][j]) && LatestOf(events[..n], IsEnd) == Some(events[..n][j]);
        assert events[j] == events[..n][j];
      }
    } else {
      OvertakenAtEnd(events);
      var earlier := LatestOf(events[..n], IsEnd);
      LatestIsIn(events[..n], IsEnd);
      if earlier.Some? {
        var j: nat :| j < n && events[..n][j] == earlier.value;
        assert events[j] == earlier.value;
      }
    }
  }

  lemma OvertakenBefore(events: seq<Event>)
    requires events != [] && !IsEnd(events[|events| - 1])
    ensures Overtaken(events) <==> Overtaken(events[..|events| - 1])
  {
    var before := events[..|events| - 1];
    if Overtaken(events) {
      var j: nat, k: nat :| Overtakes(events, j, k);
      assert Overtakes(before, j, k);
    }
    if Overtaken(before) {
      var j: nat, k: nat :| Overtakes(before, j, k);
      assert Overtakes(events, j, k);
    }
  }

  lemma OvertakenAtEnd(events: seq<Event>)
    requires events != [] && IsEnd(events[|events| - 1])
    ensures var n := |events| - 1; var earlier := LatestOf(events[..n], IsEnd);
      Overtaken(events) <==> earlier.Some? && events[n].createdAt < earlier.value.createdAt
  {
    var n := |events| - 1;
    var before := events[..n];
    if Overtaken(events) {
      var j: nat, k: nat :| Overtakes(events, j, k);
      assert before[j] == events[j];
      LatestIsMaximal(before, IsEnd, j);
    }
    LatestIsIn(before, IsEnd);
    if LatestOf(before, IsEnd).Some? {
      var j: nat :| j < n && before[j] == LatestOf(before, IsEnd).value;
      assert events[n].createdAt < events[j].createdAt ==> Overtakes(events, j, n);
    }
  }

  /** After an end that is not an error there are no more status events. */
  ghost predicate SingleEnd(op: Operation) {
    forall j :: 0 <= j < |op.events| && IsEnd(op.events[j]) && op.events[j].status != Error ==>
      op.status == op.events[j].status && forall m :: j < m < |op.events| ==> !IsStatusEvent(op.events[m].kind)
  }

  lemma StepKeepsSingleEnd(op: Operation, s: Step)
    requires SingleEnd(op) && Proper(s)
    ensures SingleEnd(Apply(op, s))
  {
  }

  lemma {:induction false} RunKeepsSingleEnd(op: Operation, steps: seq<Step>)
    requires SingleEnd(op) && forall k :: 0 <= k < |steps| ==> Proper(steps[k])
    ensures SingleEnd(Life(op, steps))
  {
    if steps != [] {
      var n := |steps| - 1;
      RunKeepsSingleEnd(op, steps[..n]);
      StepKeepsSingleEnd(Life(op, steps[..n]), steps[n]);
    }
  }

  /** What clients see of an operation whose row and events agree. */
  function SeenAs(status: Status, ack: bool, overtaken: bool): Status {
    if Terminal(status) && (status == Error || overtaken) then (if ack then Accepted else Error) else status
  }

  lemma LastListedEnd(op: Operation)
    requires Consistent(op) && SingleEnd(op)
    ensures LastTerminal(Listed(op.events)) ==
      if !Terminal(op.status) then None else if Overtaken(op.events) then Some(Error) else Some(op.status)
  {
    LatestIsLastListed(op.events, IsEnd);
    LastIsIn(op.events, IsEnd);
    if Terminal(op.status) {
      var k := LastIsLast(op.events);
      LatestUnlessOvertaken(op.events, k);
      if Overtaken(op.events) {
        var j: nat :| j < k && IsEnd(op.events[j]) && LatestOf(op.events, IsEnd) == Some(op.events[j]);
      }
    } else {
      LastIsNone(op.events);
      LatestIsIn(op.events, IsEnd);
    }
  }

  lemma ShownAsSeen(op: Operation)
    requires Consistent(op) && SingleEnd(op)
    ensures ShownStatus(op) == SeenAs(op.status, AckErrorSeen(op.events), Overtaken(op.events))
    ensures !Terminal(op.status) ==> !Overtaken(op.events)
  {
    LastListedEnd(op);
    AckListed(op.events);
    if !Terminal(op.status) {
      LastIsNone(op.events);
    }
  }

  lemma AckListed(events: seq<Event>)
    ensures AckErrorSeen(Listed(events)) <==> AckErrorSeen(events)
  {
    var listed := Listed(events);
    ListedStamps(events);
    if k :| 0 <= k < |events| && IsStatusEvent(events[k].kind) && events[k].status == Error && events[k].detail.Ack? {
      assert events[k] in listed;
    }
    if k :| 0 <= k < |listed| && IsStatusEvent(listed[k].kind) && listed[k].status == Error && listed[k].detail.Ack? {
      assert listed[k] in events;
    }
  }

  /** Over every run, whatever the clock does, clients see something else than the row status exactly in two
      cases: an error with an acknowledgement behind it, and another end that is stamped before an earlier
      one. What they see then is an error, or an acknowledgement if there was one. */
  lemma ShownStatusExactlyWhen(kind: OperationType, device: Option<nat>, now: int, steps: seq<Step>)
    requires forall k :: 0 <= k < |steps| ==> Proper(steps[k])
    ensures var op := Life(NewOperation(kind, device, now), steps);
      && (ShownStatus(op) != op.status <==>
            (op.status == Error && AckErrorSeen(op.events)) || (op.status != Error && Overtaken(op.events)))
      && (ShownStatus(op) != op.status ==> ShownStatus(op) == if AckErrorSeen(op.events) then Accepted else Error)
  {
    var first := NewOperation(kind, device, now);
    NewIsConsistent(kind, device, now);
    RunKeepsConsistent(first, steps);
    RunKeepsSingleEnd(first, steps);
    ShownAsSeen(Life(first, steps));
  }

  lemma LifeOfThree(op: Operation, a: Step, b: Step, c: Step)
    ensures Life(op, [a, b, c]) == Apply(Apply(Apply(op, a), b), c)
  {
    assert [a, b, c][..2] == [a, b] && [a, b][..1] == [a] && [a][..0] == [];
    assert Life(op, [a]) == Apply(op, a);
    assert Life(op, [a, b]) == Apply(Apply(op, a), b);
  }

  /** A misread error stamped 10, and a callback of success stamped 9. */
  const OUT_OF_ORDER := [
    Recorded(Error, Ack("accepted"), StatusChanged, 10),
    Noted("callback.received", "controller callback received", 9),
    Recorded(Success, Plain("done"), OperationSucceeded, 9)]

  lemma MisreadFirst(op: Operation)
    requires op == NewOperation(Fill, None, 0)
    ensures var e := Event(Error, Ack("accepted"), StatusChanged, 10);
      Apply(op, OUT_OF_ORDER[0]) == op.(status := Error, updatedAt := 10, events := [op.events[0], e])
      && LatestError([op.events[0], e]) == Some(e)
  {
    var e := Event(Error, Ack("accepted"), StatusChanged, 10);
    assert op.events + [e] == [op.events[0], e] && [op.events[0], e][..1] == [op.events[0]];
  }

  lemma CorrectedAfterwards(first: Operation)
    requires first.status == Error && |first.events| == 2 && LatestError(first.events) == Some(first.events[1])
    requires first.events[1] == Event(Error, Ack("accepted"), StatusChanged, 10)
    ensures var third := Apply(Apply(first, OUT_OF_ORDER[1]), OUT_OF_ORDER[2]);
      third.status == Success && Overtaken(third.events) && AckErrorSeen(third.events)
  {
    var third := Apply(Apply(first, OUT_OF_ORDER[1]), OUT_OF_ORDER[2]);
    CallbackCorrectsExactlyWhen(first, Success, Plain("done"), 9);
    assert third == Callback(first, Success, Plain("done"), 9);
    assert third.events[3] == Event(Success, Plain("done"), OperationSucceeded, 9) && third.events[1] == first.events[1];
    assert Overtakes(third.events, 1, 3);
  }

  lemma OutOfOrderRun(op: Operation)
    requires op == NewOperation(Fill, None, 0)
    ensures var last := Life(op, OUT_OF_ORDER);
      last.status == Success && Overtaken(last.events) && AckErrorSeen(last.events)
  {
    LifeOfThree(op, OUT_OF_ORDER[0], OUT_OF_ORDER[1], OUT_OF_ORDER[2]);
    MisreadFirst(op);
    CorrectedAfterwards(Apply(op, OUT_OF_ORDER[0]));
  }

  /** Stamps out of order break it: the success is the row's, and clients see an acknowledgement. */
  lemma ShownStatusNeedsTheClock()
    ensures var op := Life(NewOperation(Fill, None, 0), OUT_OF_ORDER);
      (forall k :: 0 <= k < |OUT_OF_ORDER| ==> Proper(OUT_OF_ORDER[k])) && op.status == Success && ShownStatus(op) == Accepted
  {
    OutOfOrderRun(NewOperation(Fill, None, 0));
    ShownStatusExactlyWhen(Fill, None, 0, OUT_OF_ORDER);
  }

  // ----- what a status may become -----

  /** One step: ranks only rise, three of the terminal statuses are final, and an error changes only
      by a report, through the acknowledgement escape, to a terminal status. */
  lemma StepRespectsOrder(op: Operation, s: Step)
    ensures Rank(op.status) <= Rank(Apply(op, s).status)
    ensures Terminal(op.status) && op.status != Error ==> Apply(op, s).status == op.status
    ensures op.status == Error && Apply(op, s).status != Error ==>
      s.Recorded? && MisclassifiedAck(op) && Terminal(Apply(op, s).status)
    ensures Apply(op, s).kind == op.kind && Apply(op, s).device == op.device
  {
  }

  lemma {:induction false} RunRespectsOrder(op: Operation, steps: seq<Step>)
    ensures Rank(op.status) <= Rank(Life(op, steps).status)
    ensures Terminal(op.status) && op.status != Error ==> Life(op, steps).status == op.status
  {
    if steps != [] {
      RunRespectsOrder(op, steps[..|steps| - 1]);
      StepRespectsOrder(Life(op, steps[..|steps| - 1]), steps[|steps| - 1]);
    }
  }

  // ----- what a report leaves -----

  /** The status with which a report is taken down: the one reported, but a stop's error of having nothing to
      stop is a success. */
  function TakenFor(kind: OperationType, status: Status, detail: Detail): Status {
    if kind == WateringStop && status == Error && detail.NotActive? then Success else status
  }

  /** A report to an operation that has not ended, of a rank not below the row's, is written to the row and to
      the log as it is; any other leaves the row alone and is noted as ignored, unless the escape is open. */
  lemma ReportLeaves(op: Operation, status: Status, detail: Detail, kind: EventType, now: int)
    ensures var after := Record(op, status, detail, kind, now); var st := TakenFor(op.kind, status, detail);
      && after.kind == op.kind && after.device == op.device && |after.events| == |op.events| + 1
      && after.events[..|op.events|] == op.events
      && (!Terminal(op.status) && Rank(status) >= Rank(op.status) ==>
            && after.status == st && after.updatedAt == now
            && after.events[|op.events|] ==
                 Event(st, if st == status then detail else Plain("no active watering"), kind, now))
      && ((Terminal(op.status) && !MisclassifiedAck(op)) || Rank(status) < Rank(op.status) ==>
            && after.status == op.status && after.updatedAt == op.updatedAt
            && after.events[|op.events|].kind == EventIgnored && after.events[|op.events|].status == op.status
            && after.events[|op.events|].createdAt == now)
  {
  }

  /** The statuses follow one another: queued, sending, accepted, running, and then one of four ends. So a report
      that comes late is ignored, and one that goes further is not. */
  lemma StatusesInOrder(op: Operation, detail: Detail, kind: EventType, now: int)
    ensures op.status == Running ==>
      && Record(op, Queued, detail, kind, now).status == Running && Record(op, Sending, detail, kind, now).status == Running
      && Record(op, Accepted, detail, kind, now).status == Running
    ensures op.status == Accepted ==>
      && Record(op, Queued, detail, kind, now).status == Accepted && Record(op, Sending, detail, kind, now).status == Accepted
      && Record(op, Running, detail, kind, now).status == Running
    ensures op.status == Sending ==>
      && Record(op, Queued, detail, kind, now).status == Sending && Record(op, Accepted, detail, kind, now).status == Accepted
    ensures op.status == Queued ==> Record(op, Sending, detail, kind, now).status == Sending
    ensures op.status == Queued || op.status == Sending || op.status == Accepted || op.status == Running ==>
      && Record(op, Success, detail, kind, now).status == Success && Record(op, Timeout, detail, kind, now).status == Timeout
      && Record(op, Cancelled, detail, kind, now).status == Cancelled
      && (op.kind != WateringStop || !detail.NotActive? ==> Record(op, Error, detail, kind, now).status == Error)
  {
  }

  /** The end that a step brings to an operation that has none, if any. */
  function EndOf(kind: OperationType, s: Step): Option<Status> {
    match s
    case Recorded(status, detail, _, _) => if Terminal(status) then Some(TakenFor(kind, status, detail)) else None
    case Noted(_, _, _) => None
    case Withdrawn(_, _) => Some(Cancelled)
  }

  /** The first end among the steps. */
  function FirstEnd(kind: OperationType, steps: seq<Step>): Option<Status> {
    if steps == [] then None
    else
      var n := |steps| - 1;
      var earlier := FirstEnd(kind, steps[..n]);
      if earlier.Some? then earlier else EndOf(kind, steps[n])
  }

  /** The furthest of the statuses reported on the way. */
  function Furthest(steps: seq<Step>): (s: Status)
    ensures !Terminal(s)
  {
    if steps == [] then Queued
    else
      var n := |steps| - 1;
      var earlier := Furthest(steps[..n]);
      if steps[n].Recorded? && !Terminal(steps[n].status) && Rank(steps[n].status) > Rank(earlier) then steps[n].status
      else earlier
  }

  /** Every error with the text of an acknowledgement is a status event. */
  ghost predicate AcksReported(op: Operation) {
    forall k :: 0 <= k < |op.events| && op.events[k].detail.Ack? ==> IsStatusEvent(op.events[k].kind)
  }

  lemma NoEscape(op: Operation)
    requires AcksReported(op) && !AckErrorSeen(op.events)
    ensures !MisclassifiedAck(op)
  {
  }

  lemma StepKeepsAcks(op: Operation, s: Step)
    requires AcksReported(op) && Proper(s)
    ensures AcksReported(Apply(op, s)) && (AckErrorSeen(op.events) ==> AckErrorSeen(Apply(op, s).events))
  {
    var after := Apply(op, s);
    assert forall k :: 0 <= k < |op.events| ==> after.events[k] == op.events[k];
  }

  lemma StepLeaves(op: Operation, s: Step)
    requires !MisclassifiedAck(op)
    ensures Terminal(op.status) ==> Apply(op, s).status == op.status
    ensures !Terminal(op.status) ==> (
      Apply(op, s).status ==
        if EndOf(op.kind, s).Some? then EndOf(op.kind, s).value
        else if s.Recorded? && Rank(s.status) > Rank(op.status) then s.status else op.status)
    ensures Apply(op, s).kind == op.kind
  {
  }

  /** Over every run that has left no misread acknowledgement: the row has the status of the first end that was
      reported or withdrawn, and before that the furthest status reported. */
  lemma {:induction false} RowTellsTheRun(kind: OperationType, device: Option<nat>, now: int, steps: seq<Step>)
    requires forall k :: 0 <= k < |steps| ==> Proper(steps[k])
    ensures var op := Life(NewOperation(kind, device, now), steps);
      && AcksReported(op) && op.kind == kind
      && (!AckErrorSeen(op.events) ==>
            op.status == if FirstEnd(kind, steps).Some? then FirstEnd(kind, steps).value else Furthest(steps))
      && (FirstEnd(kind, steps).Some? ==> Terminal(FirstEnd(kind, steps).value))
  {
    if steps != [] {
      var n := |steps| - 1;
      var op := Life(NewOperation(kind, device, now), steps[..n]);
      RowTellsTheRun(kind, device, now, steps[..n]);
      StepKeepsAcks(op, steps[n]);
      if !AckErrorSeen(op.events) {
        NoEscape(op);
        StepLeaves(op, steps[n]);
      }
    }
  }

  // ----- the acknowledgement escape -----

  /** While the clock does not run backwards the latest error is simply the last one listed. */
  lemma AppendError(op: Operation, e: Event)
    requires EventsBefore(op, e.createdAt)
    ensures LatestError(op.events + [e]) == if e.status == Error then Some(e) else LatestError(op.events)
  {
    assert (op.events + [e])[..|op.events|] == op.events;
    var earlier := LatestError(op.events);
    if earlier.Some? {
      var k :| 0 <= k < |op.events| && op.events[k] == earlier.value;
    }
  }

  /** An error whose escape is shut. */
  predicate Sealed(op: Operation) { op.status == Error && !MisclassifiedAck(op) }

  lemma StepKeepsSealed(op: Operation, s: Step)
    requires Sealed(op) && EventsBefore(op, s.at)
    ensures Sealed(Apply(op, s)) && EventsBefore(Apply(op, s), s.at)
  {
    var after := Apply(op, s);
    if after.events != op.events {
      AppendError(op, after.events[|op.events|]);
    }
  }

  /** Once shut the escape stays shut: no run changes the status any more. */
  lemma {:induction false} SealedForever(op: Operation, from: int, steps: seq<Step>)
    requires Sealed(op) && EventsBefore(op, from) && Clocked(from, steps)
    ensures Sealed(Life(op, steps))
    ensures EventsBefore(Life(op, steps), if steps == [] then from else steps[|steps| - 1].at)
  {
    if steps != [] {
      var n := |steps| - 1;
      SealedForever(op, from, steps[..n]);
      var before := Life(op, steps[..n]);
      assert EventsBefore(before, steps[n].at);
      StepKeepsSealed(before, steps[n]);
    }
  }

  /** A controller callback: the receipt is noted before the status is reported. */
  function Callback(op: Operation, status: Status, detail: Detail, now: int): Operation {
    var kind := match status
      case Running => OperationRunning
      case Success => OperationSucceeded
      case Error => OperationFailed
      case Timeout => OperationTimedOut
      case Cancelled => OperationCancelled
      case _ => CallbackStatus;
    Record(Trace(op, "callback.received", Plain("controller callback received"), now), status, detail, kind, now)
  }

  /** Exactly when a callback moves an operation out of error: the latest error event is an acknowledgement
      stamped later than the callback itself, and the report is terminal and different. */
  lemma CallbackCorrectsExactlyWhen(op: Operation, status: Status, detail: Detail, now: int)
    requires op.status == Error
    ensures Callback(op, status, detail, now).status != Error <==>
      && LatestError(op.events).Some? && LatestError(op.events).value.detail.Ack?
      && now < LatestError(op.events).value.createdAt
      && Terminal(status) && (status != Error || NothingToStop(op, status, detail))
  {
    var note := Event(Error, Plain("controller callback received"), Traced("callback.received"), now);
    assert (op.events + [note])[..|op.events|] == op.events;
    ErrorIsCorrectedExactlyWhen(Append(op, note), status, detail, StatusChanged, now);
  }

  /** While the clock does not run backwards the note shuts the escape: no callback ever moves an operation out of error, although the
      escape was made for callbacks. */
  lemma CallbackNeverCorrectsAnError(op: Operation, status: Status, detail: Detail, now: int)
    requires op.status == Error && EventsBefore(op, now)
    ensures Callback(op, status, detail, now).status == Error && Sealed(Callback(op, status, detail, now))
  {
    var noted := Trace(op, "callback.received", Plain("controller callback received"), now);
    AppendError(op, noted.events[|op.events|]);
    StepKeepsSealed(noted, Recorded(status, detail, CallbackStatus, now));
    var after := Callback(op, status, detail, now);
    assert after == Ignore(noted, now);
  }

  /** Exactly when a report changes an operation in error: its latest error event is an
      acknowledgement, and the report is terminal and different. */
  lemma ErrorIsCorrectedExactlyWhen(op: Operation, status: Status, detail: Detail, kind: EventType, now: int)
    requires op.status == Error
    ensures Record(op, status, detail, kind, now).status != Error <==>
      && LatestError(op.events).Some? && LatestError(op.events).value.detail.Ack?
      && Terminal(status) && (status != Error || NothingToStop(op, status, detail))
  {
  }
}
