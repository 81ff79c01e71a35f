/** Safety of the protocol: every step keeps the invariant, hence so does every run. */
module ProtocolSafety {
  import opened Options
  import opened OperationLog
  import opened Protocol

  /** What any step may do to an operation: its identity stays, its status rank never falls, three of the
      terminal statuses are final, and its events are only added to. */
  predicate Evolved(a: Operation, b: Operation) {
    && a.kind == b.kind && a.device == b.device && Rank(a.status) <= Rank(b.status) && a.events <= b.events
    && (Terminal(a.status) && a.status != Error ==> b.status == a.status)
  }

  ghost predicate OpsEvolved(before: map<OpId, Operation>, after: map<OpId, Operation>) {
    before.Keys <= after.Keys && forall id :: id in before ==> Evolved(before[id], after[id])
  }

  /** Steps that only touch operations keep everything else in place. */
  lemma OpsOnly(db: Db, after: Db)
    requires Inv(db) && after.queue == db.queue && after.lastId == db.lastId && after.phase == db.phase
    requires after.ops.Keys == db.ops.Keys && OpsEvolved(db.ops, after.ops)
    ensures Inv(after)
  {
    forall id | id in after.ops && Waiting(after.ops[id]) && !InProgress(after, id) ensures HasCommand(after, id) {
      assert Waiting(db.ops[id]) && !InProgress(db, id);
      assert HasCommand(db, id);
    }
    assert forall id, d :: id in after.ops && ActiveStart(after.ops[id], d) ==> ActiveStart(db.ops[id], d);
    assert forall q :: q in db.queue ==> Matches(db.queue[q], db.ops[db.queue[q].op]);
    assert RowsMatch(after);
  }

  lemma ReportKeepsInv(db: Db, a: Action)
    requires Inv(db) && Enabled(db, a) && (a.Report? || a.Note? || a.TimeoutStale?)
    ensures Inv(Next(db, a))
  {
    OpsOnly(db, Next(db, a));
  }

  /** Rows may only go when their operation no longer waits for them, or the service call at hand will cancel it. */
  lemma RowsGone(db: Db, after: Db)
    requires RowsMatch(db) && NothingLost(db) && UniqueKeys(db) && OneCommandEach(db) && OneStartEach(db) && PhaseHolds(after)
    requires after.ops == db.ops && after.lastId == db.lastId
    requires forall q :: q in after.queue ==> q in db.queue && after.queue[q] == db.queue[q]
    requires forall q :: q in db.queue && q !in after.queue ==>
      var id := db.queue[q].op; id in db.ops ==> !Waiting(db.ops[id]) || InProgress(after, id)
    requires forall id :: id in db.ops && InProgress(db, id) ==> !Waiting(db.ops[id]) || InProgress(after, id)
    ensures Inv(after)
  {
    forall id | id in after.ops && Waiting(after.ops[id]) && !InProgress(after, id) ensures HasCommand(after, id) {
      assert HasCommand(db, id);
      var q :| q in db.queue && db.queue[q].op == id;
      assert q in after.queue;
    }
  }

  lemma TraceKeepsInv(db: Db, id: OpId, name: string, text: string, at: int)
    requires Inv(db)
    ensures Inv(WithNote(db, id, name, text, at))
  {
    OpsOnly(db, WithNote(db, id, name, text, at));
  }

  lemma PopKeepsInv(db: Db, q: nat, at: int)
    requires Inv(db) && Enabled(db, Pop(q, at))
    ensures Inv(Next(db, Pop(q, at)))
  {
    if q in db.queue {
      var gone := db.(queue := db.queue - {q});
      assert forall id :: HasCommand(gone, id) ==> HasCommand(db, id);
      RowsGone(db, gone);
      TraceKeepsInv(gone, db.queue[q].op, "command.removed", "", at);
    }
  }

  lemma DropsKeepInv(db: Db, a: Action)
    requires Inv(db) && Enabled(db, a) && (a.DropStarts? || a.DropDevice?)
    ensures Inv(Next(db, a))
  {
    RowsGone(db, Next(db, a));
  }

  /** A row may be replaced by one with a new id that carries the same command. */
  lemma RowReplaced(db: Db, after: Db, q: nat, p: nat)
    requires Inv(db) && q in db.queue && (p == q || p == db.lastId + 1)
    requires after.ops == db.ops && after.phase == db.phase && after.lastId == if p == q then db.lastId else p
    requires after.queue.Keys == db.queue.Keys - {q} + {p} && SameCommand(after.queue[p], db.queue[q])
    requires forall k :: k in after.queue && k != p ==> k in db.queue && after.queue[k] == db.queue[k]
    ensures Inv(after)
  {
    assert after.queue[p].op == db.queue[q].op && SameKey(after.queue[p], db.queue[q]) && after.queue[p].target == db.queue[q].target;
    forall id ensures HasCommand(after, id) <==> HasCommand(db, id) {
      if HasCommand(db, id) {
        var k :| k in db.queue && db.queue[k].op == id;
        assert k == q || k in after.queue;
        assert after.queue[if k == q then p else k].op == id;
      }
      if HasCommand(after, id) {
        var k :| k in after.queue && after.queue[k].op == id;
        assert db.queue[if k == p then q else k].op == id;
      }
    }
    assert Matches(after.queue[p], db.ops[db.queue[q].op]);
    assert RowsMatch(after);
    forall i, j | i in after.queue && j in after.queue && i != j
      ensures !SameKey(after.queue[i], after.queue[j]) && after.queue[i].op != after.queue[j].op
    {
      var i', j' := if i == p then q else i, if j == p then q else j;
      assert i' != j' && SameCommand(after.queue[i], db.queue[i']) && SameCommand(after.queue[j], db.queue[j']);
      assert !SameKey(db.queue[i'], db.queue[j']) && db.queue[i'].op != db.queue[j'].op;
    }
  }

  lemma MovedKeepsInv(db: Db, q: nat, c: Command)
    requires Inv(db) && q in db.queue && SameCommand(c, db.queue[q])
    ensures Inv(Moved(db, q, c))
  {
    assert q <= db.lastId && db.lastId + 1 !in db.queue;
    RowReplaced(db, Moved(db, q, c), q, db.lastId + 1);
  }

  lemma RequeueKeepsInv(db: Db, q: nat, c: Command, started: int, at: int)
    requires Inv(db) && Enabled(db, Requeue(q, c, started, at))
    ensures Inv(Next(db, Requeue(q, c, started, at)))
  {
    if q in db.queue {
      MovedKeepsInv(db, q, Requeued(c, started));
      TraceKeepsInv(Moved(db, q, Requeued(c, started)), c.op, "command.requeued", "", at);
    }
  }

  lemma MarkKeepsInv(db: Db, q: nat, at: int)
    requires Inv(db)
    ensures Inv(Next(db, MarkStarted(q, at)))
  {
    if q in db.queue { RowReplaced(db, Next(db, MarkStarted(q, at)), q, q); }
  }

  lemma CreateKeepsInv(db: Db, a: Action)
    requires Inv(db) && Enabled(db, a) && a.Create?
    ensures Inv(Next(db, a))
  {
    var after := Next(db, a);
    assert forall id :: HasCommand(after, id) <==> HasCommand(db, id);
    assert forall q :: q in db.queue ==> db.queue[q].op in db.ops && db.queue[q].op != a.id;
    assert forall q :: q in db.queue ==> Matches(db.queue[q], after.ops[db.queue[q].op]);
    forall id | id in after.ops && Waiting(after.ops[id]) && !InProgress(after, id) ensures HasCommand(after, id) {
      assert id in db.ops && !InProgress(db, id);
    }
    if IsStart(a.optype) {
      assert forall id, d :: id in db.ops && ActiveStart(db.ops[id], d) ==> d != a.device.value;
    }
  }

  /** A row may be added for an operation that has none, when no row asks for the same. */
  lemma RowAdded(db: Db, after: Db, c: Command)
    requires RowsMatch(db) && UniqueKeys(db) && OneCommandEach(db) && OneStartEach(db) && NoDuplicate(db, c)
    requires c.op in db.ops && !HasCommand(db, c.op) && Matches(c, db.ops[c.op])
    requires after == db.(queue := db.queue[db.lastId + 1 := c], lastId := db.lastId + 1, phase := Free)
    ensures RowsMatch(after) && UniqueKeys(after) && OneCommandEach(after) && OneStartEach(after)
    ensures HasCommand(after, c.op) && forall id :: HasCommand(db, id) ==> HasCommand(after, id)
  {
    forall id | HasCommand(db, id) ensures HasCommand(after, id) {
      var q :| q in db.queue && db.queue[q].op == id;
      assert after.queue[q].op == id;
    }
    assert after.queue[db.lastId + 1].op == c.op;
    assert forall q :: q in db.queue ==> db.queue[q].op != c.op && !SameKey(db.queue[q], c) && !SameKey(c, db.queue[q]);
  }

  lemma EnqueueKeepsInv(db: Db, c: Command, at: int)
    requires Inv(db) && Enabled(db, Enqueue(c, at))
    ensures Inv(Next(db, Enqueue(c, at)))
  {
    var added := db.(queue := db.queue[db.lastId + 1 := c], lastId := db.lastId + 1, phase := Free);
    RowAdded(db, added, c);
    TraceKeepsInv(added, c.op, "command.queued", "", at);
  }

  /** A phase may change once everything that was in progress has reached a terminal status. */
  lemma PhaseChanges(db: Db, phase: ServicePhase)
    requires Inv(db) && PhaseHolds(db.(phase := phase))
    requires forall id :: id in db.ops && InProgress(db, id) ==> !Waiting(db.ops[id])
    ensures Inv(db.(phase := phase))
  {
    var after := db.(phase := phase);
    assert forall id :: HasCommand(after, id) <==> HasCommand(db, id);
    forall id | id in after.ops && Waiting(after.ops[id]) && !InProgress(after, id) ensures HasCommand(after, id) {
      assert HasCommand(db, id);
    }
  }

  lemma AbandonKeepsInv(db: Db, id: OpId, at: int)
    requires Inv(db) && Enabled(db, Abandon(id, at))
    ensures Inv(Next(db, Abandon(id, at)))
  {
    var after := Next(db, Abandon(id, at));
    var same := after.(phase := db.phase);
    OpsOnly(db, same);
    assert Terminal(same.ops[id].status);
    PhaseChanges(same, Free);
  }

  lemma CancelStartsKeepsInv(db: Db, d: DeviceId, at: int)
    requires Inv(db) && Enabled(db, CancelStarts(d, at))
    ensures Inv(Next(db, CancelStarts(d, at))) && NoActiveStart(Next(db, CancelStarts(d, at)), d)
  {
    var after := Next(db, CancelStarts(d, at));
    var same := after.(phase := Free);
    OpsOnly(db, same);
    PhaseChanges(same, Stopping(d));
  }

  lemma CancelDeviceKeepsInv(db: Db, d: DeviceId, at: int)
    requires Inv(db) && Enabled(db, CancelDevice(d, at))
    ensures Inv(Next(db, CancelDevice(d, at)))
  {
    var after := Next(db, CancelDevice(d, at));
    var same := after.(phase := db.phase);
    OpsOnly(db, same);
    assert forall id :: id in same.ops && same.ops[id].device == Some(d) ==> Terminal(same.ops[id].status);
    PhaseChanges(same, Free);
  }

  /** Every step of every participant keeps the invariant. */
  lemma StepKeepsInv(db: Db, a: Action)
    requires Inv(db) && Enabled(db, a)
    ensures Inv(Next(db, a))
  {
    match a
    case Report(_, _, _, _, _) => ReportKeepsInv(db, a);
    case Note(_, _, _, _) => ReportKeepsInv(db, a);
    case TimeoutStale(_, _) => ReportKeepsInv(db, a);
    case MarkStarted(q, at) => MarkKeepsInv(db, q, at);
    case Pop(q, at) => PopKeepsInv(db, q, at);
    case Requeue(q, c, started, at) => RequeueKeepsInv(db, q, c, started, at);
    case Create(_, _, _, _) => CreateKeepsInv(db, a);
    case Enqueue(c, at) => EnqueueKeepsInv(db, c, at);
    case Abandon(id, at) => AbandonKeepsInv(db, id, at);
    case CancelStarts(d, at) => CancelStartsKeepsInv(db, d, at);
    case DropStarts(_) => DropsKeepInv(db, a);
    case DropDevice(_) => DropsKeepInv(db, a);
    case CancelDevice(d, at) => CancelDeviceKeepsInv(db, d, at);
  }

  // ----- runs -----

  function Run(db: Db, actions: seq<Action>): Db {
    if actions == [] then db else Next(Run(db, actions[..|actions| - 1]), actions[|actions| - 1])
  }

  /** Any interleaving of the steps of all participants, each taken when its code may take it. */
  ghost predicate Possible(db: Db, actions: seq<Action>) {
    actions == [] ||
    (Possible(db, actions[..|actions| - 1]) && Enabled(Run(db, actions[..|actions| - 1]), actions[|actions| - 1]))
  }

  lemma {:induction false} RunKeepsInv(db: Db, actions: seq<Action>)
    requires Inv(db) && Possible(db, actions)
    ensures Inv(Run(db, actions))
  {
    if actions != [] {
      RunKeepsInv(db, actions[..|actions| - 1]);
      StepKeepsInv(Run(db, actions[..|actions| - 1]), actions[|actions| - 1]);
    }
  }

  /** No operation is lost and nothing is queued twice: in every reachable state between service calls,
      an operation still queued or sending has a command in the queue, no two commands ask for the
      same thing, no two belong to one operation, and no device has two active watering starts. */
  lemma NoOperationIsLost(actions: seq<Action>)
    requires Possible(EMPTY, actions) && Run(EMPTY, actions).phase == Free
    ensures var db := Run(EMPTY, actions);
      && (forall id :: id in db.ops && !db.ops[id].kind.CallbackProbe? && Rank(db.ops[id].status) < 2 ==> HasCommand(db, id))
      && (forall p, q :: p in db.queue && q in db.queue && p != q ==>
            !SameKey(db.queue[p], db.queue[q]) && db.queue[p].op != db.queue[q].op)
      && (forall i, j, d :: i in db.ops && j in db.ops && Unfinished(db.ops[i], d) && Unfinished(db.ops[j], d) ==> i == j)
  {
    RunKeepsInv(EMPTY, actions);
    var db := Run(EMPTY, actions);
    assert forall i, d :: i in db.ops && Unfinished(db.ops[i], d) ==> ActiveStart(db.ops[i], d);
  }

  /** A watering of the device, of either kind, that has not come to one of the four ends. */
  predicate Unfinished(op: Operation, d: DeviceId) {
    && (op.kind == WateringStart || op.kind == Fill) && op.device == Some(d)
    && (op.status == Queued || op.status == Sending || op.status == Accepted || op.status == Running)
  }

  ghost predicate RowsKept(db: Db, after: Db) {
    && db.lastId <= after.lastId
    && forall q :: q in after.queue && q <= db.lastId ==> q in db.queue && RowKept(db.queue[q], after.queue[q])
  }

  /** A row is never rewritten; only its first start is noted, once. */
  predicate RowKept(before: Command, after: Command) {
    SameCommand(after, before) && (before.startedAt.Some? ==> after.startedAt == before.startedAt)
  }

  /** What a participant may rely on between two of its own steps. */
  ghost predicate Rely(db: Db, after: Db) {
    OpsEvolved(db.ops, after.ops) && RowsKept(db, after)
  }

  lemma StepEvolves(db: Db, a: Action)
    requires Inv(db) && Enabled(db, a)
    ensures OpsEvolved(db.ops, Next(db, a).ops)
  {
    forall id | id in db.ops
      ensures id in Next(db, a).ops && Evolved(db.ops[id], Next(db, a).ops[id])
    {
      OpEvolves(db, a, id);
    }
  }

  /** The steps that may reach many operations at once. */
  predicate Bulk(a: Action) { a.TimeoutStale? || a.CancelStarts? || a.CancelDevice? }

  lemma BulkEvolves(db: Db, a: Action, id: OpId)
    requires Bulk(a) && id in db.ops
    ensures id in Next(db, a).ops && Evolved(db.ops[id], Next(db, a).ops[id])
  {
  }

  lemma OpEvolves(db: Db, a: Action, id: OpId)
    requires Enabled(db, a) && id in db.ops
    ensures id in Next(db, a).ops && Evolved(db.ops[id], Next(db, a).ops[id])
  {
    if Bulk(a) { BulkEvolves(db, a, id); }
  }

  lemma StepKeepsRows(db: Db, a: Action)
    requires Inv(db) && Enabled(db, a)
    ensures RowsKept(db, Next(db, a))
  {
    forall q | q in Next(db, a).queue && q <= db.lastId
      ensures q in db.queue && RowKept(db.queue[q], Next(db, a).queue[q])
    {
      RowStays(db, a, q);
    }
  }

  lemma RowStays(db: Db, a: Action, q: nat)
    requires q in Next(db, a).queue && q <= db.lastId
    ensures q in db.queue && RowKept(db.queue[q], Next(db, a).queue[q])
  {
  }

  /** Rows are never rewritten or reused: a row under an old id is the old row, started at most once. */
  lemma {:induction false} RunRely(db: Db, actions: seq<Action>)
    requires Inv(db) && Possible(db, actions)
    ensures Rely(db, Run(db, actions))
  {
    if actions != [] {
      var n := |actions| - 1;
      RunKeepsInv(db, actions[..n]);
      RunRely(db, actions[..n]);
      StepEvolves(Run(db, actions[..n]), actions[n]);
      StepKeepsRows(Run(db, actions[..n]), actions[n]);
      RelyTransitive(db, Run(db, actions[..n]), Run(db, actions));
    }
  }

  lemma RelyTransitive(a: Db, b: Db, c: Db)
    requires Rely(a, b) && Rely(b, c)
    ensures Rely(a, c)
  {
    forall id | id in a.ops ensures Evolved(a.ops[id], c.ops[id]) {
      assert Evolved(a.ops[id], b.ops[id]) && Evolved(b.ops[id], c.ops[id]);
    }
    forall q | q in c.queue && q <= a.lastId ensures q in a.queue && RowKept(a.queue[q], c.queue[q]) {
      assert q in b.queue && RowKept(b.queue[q], c.queue[q]) && RowKept(a.queue[q], b.queue[q]);
    }
  }

  lemma StepKeepsGone(db: Db, a: Action, id: OpId)
    requires Inv(db) && Enabled(db, a) && id in db.ops && !HasCommand(db, id) && db.phase != Creating(id)
    ensures var after := Next(db, a); id in after.ops && !HasCommand(after, id) && after.phase != Creating(id)
  {
    assert forall q :: q in db.queue ==> db.queue[q].op != id;
  }

  /** A command that was sent, dropped or given up never comes back: no later step, and in particular
      no requeue by a worker that still holds a copy of it, queues its operation again. */
  lemma {:induction false} GoneStaysGone(db: Db, actions: seq<Action>, id: OpId)
    requires Inv(db) && Possible(db, actions)
    requires id in db.ops && !HasCommand(db, id) && db.phase != Creating(id)
    ensures var after := Run(db, actions); id in after.ops && !HasCommand(after, id) && after.phase != Creating(id)
  {
    if actions != [] {
      var n := |actions| - 1;
      RunKeepsInv(db, actions[..n]);
      GoneStaysGone(db, actions[..n], id);
      StepKeepsGone(Run(db, actions[..n]), actions[n], id);
    }
  }

  // ----- reports -----

  /** The status was reported to the operation some time after `before`, and what that did is in its log. */
  ghost predicate Reported(before: Operation, after: Operation, status: Status, detail: Detail, kind: EventType) {
    exists op, at :: Evolved(before, op) && Evolved(Record(op, status, detail, kind, at), after)
  }

  /** What a report made at time `at` has left in `after`, if the operation was `op` then: taken down as it was
      made, in the row for good if it is an end but an error, or noted as ignored. */
  predicate Landed(op: Operation, after: Operation, status: Status, detail: Detail, kind: EventType, at: int) {
    var st := TakenFor(op.kind, status, detail);
    var text := if st == status then detail else Plain("no active watering");
    && (!Terminal(op.status) && Rank(status) >= Rank(op.status) ==> (
          && op.events + [Event(st, text, kind, at)] <= after.events && Rank(st) <= Rank(after.status)
          && (Terminal(st) && st != Error ==> after.status == st)))
    && ((Terminal(op.status) && !MisclassifiedAck(op)) || Rank(status) < Rank(op.status) ==>
          op.events + [Event(op.status, Plain("ignored"), EventIgnored, at)] <= after.events)
  }

  ghost predicate ReportLanded(before: Operation, after: Operation, status: Status, detail: Detail, kind: EventType) {
    exists op, at :: Evolved(before, op) && Landed(op, after, status, detail, kind, at)
  }

  lemma ReportedLands(before: Operation, after: Operation, status: Status, detail: Detail, kind: EventType)
    requires Reported(before, after, status, detail, kind)
    ensures ReportLanded(before, after, status, detail, kind)
  {
    var op, at :| Evolved(before, op) && Evolved(Record(op, status, detail, kind, at), after);
    ReportLeaves(op, status, detail, kind, at);
    assert Landed(op, after, status, detail, kind, at);
  }

  lemma ReportedEarlier(a: Operation, b: Operation, c: Operation, status: Status, detail: Detail, kind: EventType)
    requires Evolved(a, b) && Reported(b, c, status, detail, kind)
    ensures Reported(a, c, status, detail, kind)
  {
    var op, at :| Evolved(b, op) && Evolved(Record(op, status, detail, kind, at), c);
    assert Evolved(a, op);
  }

  lemma ReportedStays(a: Operation, b: Operation, c: Operation, status: Status, detail: Detail, kind: EventType)
    requires Reported(a, b, status, detail, kind) && Evolved(b, c)
    ensures Reported(a, c, status, detail, kind)
  {
    var op, at :| Evolved(a, op) && Evolved(Record(op, status, detail, kind, at), b);
    assert Evolved(Record(op, status, detail, kind, at), c);
  }

  // ----- deadlines -----

  /** The operation's command, if it is still queued, was started at time `t` or earlier. */
  ghost predicate StartedBy(db: Db, id: OpId, t: int) {
    && id in db.ops && db.phase != Creating(id)
    && forall q :: q in db.queue && db.queue[q].op == id ==> db.queue[q].startedAt.Some? && db.queue[q].startedAt.value <= t
  }

  lemma StepKeepsStart(db: Db, a: Action, id: OpId, t: int)
    requires Enabled(db, a) && StartedBy(db, id, t)
    ensures StartedBy(Next(db, a), id, t)
  {
    var after := Next(db, a);
    forall q | q in after.queue && after.queue[q].op == id
      ensures after.queue[q].startedAt.Some? && after.queue[q].startedAt.value <= t
    {
      StartStays(db, a, id, t, q);
    }
    assert id in after.ops && after.phase != Creating(id);
  }

  lemma StartStays(db: Db, a: Action, id: OpId, t: int, q: nat)
    requires Enabled(db, a) && StartedBy(db, id, t) && q in Next(db, a).queue && Next(db, a).queue[q].op == id
    ensures Next(db, a).queue[q].startedAt.Some? && Next(db, a).queue[q].startedAt.value <= t
  {
  }

  lemma {:induction false} RunKeepsStart(db: Db, actions: seq<Action>, id: OpId, t: int)
    requires Possible(db, actions) && StartedBy(db, id, t)
    ensures StartedBy(Run(db, actions), id, t)
  {
    if actions != [] {
      var n := |actions| - 1;
      RunKeepsStart(db, actions[..n], id, t);
      StepKeepsStart(Run(db, actions[..n]), actions[n], id, t);
    }
  }

  /** Once started, a command's start, and with it the deadline of its operation, never moves later,
      through however many requeues. */
  lemma DeadlineNeverMovesLater(db: Db, actions: seq<Action>, q: nat, p: nat)
    requires Inv(db) && Possible(db, actions) && q in db.queue && db.queue[q].startedAt.Some?
    requires p in Run(db, actions).queue && Run(db, actions).queue[p].op == db.queue[q].op
    ensures var later := Run(db, actions).queue[p].startedAt;
      later.Some? && later.value <= db.queue[q].startedAt.value
  {
    var id, t := db.queue[q].op, db.queue[q].startedAt.value;
    assert HasCommand(db, id);
    assert StartedBy(db, id, t);
    RunKeepsStart(db, actions, id, t);
  }

  /** A requeue leaves every other row, and puts the command at the tail with the start it had when it was read,
      or the one noted for it since. */
  lemma RequeueKeepsStart(db: Db, q: nat, c: Command, started: int, at: int)
    requires Inv(db) && q in db.queue && SameCommand(db.queue[q], c)
    ensures var after := Next(db, Requeue(q, c, started, at)); var p := db.lastId + 1;
      && after.queue.Keys == db.queue.Keys - {q} + {p} && SameCommand(after.queue[p], db.queue[q])
      && after.queue[p].startedAt == (if c.startedAt.Some? && c.startedAt.value != 0 then c.startedAt else Some(started))
      && forall k :: k in db.queue && k != q ==> after.queue[k] == db.queue[k]
  {
    assert db.lastId + 1 !in db.queue;
  }

  // ----- an operation and its command -----

  /** Wherever the operation's command is queued, it is `c` but for its start. */
  ghost predicate CommandIs(db: Db, id: OpId, c: Command) {
    && id in db.ops && db.phase != Creating(id)
    && forall q :: q in db.queue && db.queue[q].op == id ==> SameCommand(db.queue[q], c)
  }

  lemma StepKeepsCommand(db: Db, a: Action, id: OpId, c: Command)
    requires Enabled(db, a) && CommandIs(db, id, c)
    ensures CommandIs(Next(db, a), id, c)
  {
    forall q | q in Next(db, a).queue && Next(db, a).queue[q].op == id
      ensures SameCommand(Next(db, a).queue[q], c)
    {
      CommandStays(db, a, id, c, q);
    }
    assert id in Next(db, a).ops && Next(db, a).phase != Creating(id);
  }

  lemma CommandStays(db: Db, a: Action, id: OpId, c: Command, q: nat)
    requires Enabled(db, a) && CommandIs(db, id, c) && q in Next(db, a).queue && Next(db, a).queue[q].op == id
    ensures SameCommand(Next(db, a).queue[q], c)
  {
  }

  /** Over every run an operation that has a command never gets another one. */
  lemma {:induction false} RunKeepsCommand(db: Db, actions: seq<Action>, id: OpId, c: Command)
    requires Possible(db, actions) && CommandIs(db, id, c)
    ensures CommandIs(Run(db, actions), id, c)
  {
    if actions != [] {
      var n := |actions| - 1;
      RunKeepsCommand(db, actions[..n], id, c);
      StepKeepsCommand(Run(db, actions[..n]), actions[n], id, c);
    }
  }

  // ----- one worker, one key -----

  /** The steps a worker takes on the queue row `q`. */
  predicate WorkerStep(a: Action, q: nat) {
    match a
    case MarkStarted(p, _) => p == q
    case Pop(p, _) => p == q
    case Requeue(p, _, _, _) => p == q
    case _ => false
  }

  function Subqueue(db: Db, key: Option<Target>): map<nat, Command> {
    map q | q in db.queue && (key == None || db.queue[q].target == key.value) :: db.queue[q]
  }

  /** A worker for one key leaves the queue of every other key as it is. */
  lemma OtherKeysUntouched(db: Db, a: Action, q: nat, key: Target, other: Target)
    requires Inv(db) && Enabled(db, a) && WorkerStep(a, q) && key != other
    requires q in db.queue ==> db.queue[q].target == key
    ensures Subqueue(Next(db, a), Some(other)) == Subqueue(db, Some(other))
  {
    var after := Next(db, a);
    if q in db.queue {
      assert db.lastId + 1 !in db.queue;
      forall p: nat
        ensures p in Subqueue(after, Some(other)) <==> p in Subqueue(db, Some(other))
        ensures p in Subqueue(db, Some(other)) ==> after.queue[p] == db.queue[p]
      {
        OtherRowUntouched(db, a, q, p, other);
      }
    } else {
      assert after.queue == db.queue;
    }
  }

  lemma OtherRowUntouched(db: Db, a: Action, q: nat, p: nat, other: Target)
    requires WorkerStep(a, q) && Enabled(db, a) && q in db.queue && db.queue[q].target != other && db.lastId + 1 !in db.queue
    ensures p in Subqueue(Next(db, a), Some(other)) <==> p in Subqueue(db, Some(other))
    ensures p in Subqueue(db, Some(other)) ==> p in Next(db, a).queue && Next(db, a).queue[p] == db.queue[p]
  {
  }

  // ----- the log of every operation -----

  ghost predicate AllConsistent(db: Db) {
    forall id :: id in db.ops ==> Consistent(db.ops[id])
  }

  /** The row and the events of every operation agree after every step. */
  lemma StepKeepsAllConsistent(db: Db, a: Action)
    requires AllConsistent(db) && Enabled(db, a)
    ensures AllConsistent(Next(db, a))
  {
    forall id | id in Next(db, a).ops ensures Consistent(Next(db, a).ops[id]) {
      OpStaysConsistent(db, a, id);
    }
  }

  lemma BulkStaysConsistent(db: Db, a: Action, id: OpId)
    requires Bulk(a) && id in db.ops && Consistent(db.ops[id])
    ensures id in Next(db, a).ops && Consistent(Next(db, a).ops[id])
  {
    ConsistentChange(db.ops[id], a);
  }

  lemma OpStaysConsistent(db: Db, a: Action, id: OpId)
    requires Enabled(db, a) && id in Next(db, a).ops && (id in db.ops ==> Consistent(db.ops[id]))
    ensures Consistent(Next(db, a).ops[id])
  {
    if id !in db.ops {
      NewIsConsistent(a.optype, a.device, a.at);
    } else if Bulk(a) {
      BulkStaysConsistent(db, a, id);
    } else {
      ConsistentChange(db.ops[id], a);
    }
  }

  lemma ConsistentChange(op: Operation, a: Action)
    requires Consistent(op)
    ensures a.Report? && IsStatusEvent(a.kind) ==> Consistent(Record(op, a.status, a.detail, a.kind, a.at))
    ensures forall name, text, at :: Consistent(Trace(op, name, Plain(text), at))
    ensures forall status, detail, at :: Consistent(Record(op, status, detail, StatusChanged, at))
    ensures forall detail, at :: Consistent(Cancel(op, detail, at))
  {
    if a.Report? && IsStatusEvent(a.kind) {
      StepKeepsConsistent(op, Recorded(a.status, a.detail, a.kind, a.at));
    }
    forall name, text, at ensures Consistent(Trace(op, name, Plain(text), at)) {
      StepKeepsConsistent(op, Noted(name, text, at));
    }
    forall status, detail, at ensures Consistent(Record(op, status, detail, StatusChanged, at)) {
      StepKeepsConsistent(op, Recorded(status, detail, StatusChanged, at));
    }
    forall detail, at ensures Consistent(Cancel(op, detail, at)) {
      StepKeepsConsistent(op, Withdrawn(detail, at));
    }
  }

  /** The time an action writes, if it writes one into the log. */
  function Moment(a: Action): Option<int> {
    match a
    case Report(_, _, _, _, at) => Some(at)
    case Note(_, _, _, at) => Some(at)
    case TimeoutStale(_, at) => Some(at)
    case Pop(_, at) => Some(at)
    case Requeue(_, _, _, at) => Some(at)
    case Create(_, _, _, at) => Some(at)
    case Enqueue(_, at) => Some(at)
    case Abandon(_, at) => Some(at)
    case CancelStarts(_, at) => Some(at)
    case CancelDevice(_, at) => Some(at)
    case _ => None
  }

  function LaterMoment(a: Action, from: int): int { if Moment(a).Some? then Moment(a).value else from }

  /** Every log is in the order of its stamps, none later than `now`. */
  ghost predicate LogsStamped(db: Db, now: int) {
    forall id :: id in db.ops ==> Stamped(db.ops[id].events) && EventsBefore(db.ops[id], now)
  }

  /** A clock that does not run backwards. */
  function LastMoment(actions: seq<Action>, from: int): int {
    if actions == [] then from else LaterMoment(actions[|actions| - 1], LastMoment(actions[..|actions| - 1], from))
  }

  predicate InTime(actions: seq<Action>, from: int) {
    actions == [] || (
      && InTime(actions[..|actions| - 1], from)
      && LastMoment(actions[..|actions| - 1], from) <= LastMoment(actions, from))
  }

  /** The log of an operation grew by at most one event, of that time. */
  ghost predicate GrewAt(a: Operation, b: Operation, now: int) {
    b.events == a.events || exists e: Event :: e.createdAt == now && b.events == a.events + [e]
  }

  lemma OpGrowsAt(op: Operation, now: int)
    ensures forall status, detail, kind :: GrewAt(op, Record(op, status, detail, kind, now), now)
    ensures forall name, detail :: GrewAt(op, Trace(op, name, detail, now), now)
    ensures forall detail :: GrewAt(op, Cancel(op, detail, now), now)
  {
    forall status, detail, kind ensures GrewAt(op, Record(op, status, detail, kind, now), now) {
      var r := Record(op, status, detail, kind, now);
      assert r.events == op.events + [r.events[|op.events|]];
    }
  }

  lemma BulkGrowsLog(db: Db, a: Action, id: OpId)
    requires Bulk(a) && id in db.ops
    ensures id in Next(db, a).ops
    ensures Next(db, a).ops[id] == db.ops[id]
         || (Moment(a).Some? && GrewAt(db.ops[id], Next(db, a).ops[id], Moment(a).value))
  {
    OpGrowsAt(db.ops[id], a.at);
  }

  lemma RecordGrowsLog(db: Db, a: Action, id: OpId)
    requires (a.Report? || a.Abandon?) && id in db.ops
    ensures id in Next(db, a).ops
    ensures Next(db, a).ops[id] == db.ops[id] || GrewAt(db.ops[id], Next(db, a).ops[id], a.at)
  {
    OpGrowsAt(db.ops[id], a.at);
  }

  lemma NoteGrowsLog(db: Db, a: Action, id: OpId)
    requires Enabled(db, a) && (a.Note? || a.Pop? || a.Requeue? || a.Enqueue? || a.Create?) && id in db.ops
    ensures id in Next(db, a).ops
    ensures Next(db, a).ops[id] == db.ops[id] || GrewAt(db.ops[id], Next(db, a).ops[id], a.at)
  {
    OpGrowsAt(db.ops[id], a.at);
  }

  lemma StepGrowsLog(db: Db, a: Action, id: OpId)
    requires Enabled(db, a) && id in db.ops
    ensures id in Next(db, a).ops
    ensures Next(db, a).ops[id] == db.ops[id]
         || (Moment(a).Some? && GrewAt(db.ops[id], Next(db, a).ops[id], Moment(a).value))
  {
    if Bulk(a) {
      BulkGrowsLog(db, a, id);
    } else if a.Report? || a.Abandon? {
      RecordGrowsLog(db, a, id);
    } else if Moment(a).Some? {
      NoteGrowsLog(db, a, id);
    }
  }

  lemma GrownIsStamped(a: Operation, b: Operation, now: int)
    requires Stamped(a.events) && EventsBefore(a, now) && GrewAt(a, b, now)
    ensures Stamped(b.events) && EventsBefore(b, now)
  {
    if b.events != a.events {
      var e: Event :| e.createdAt == now && b.events == a.events + [e];
      StampedSnoc(a.events, e);
    }
  }

  lemma StepKeepsLogStamped(db: Db, a: Action, id: OpId, now: int)
    requires Enabled(db, a) && LogsStamped(db, now) && now <= LaterMoment(a, now) && id in Next(db, a).ops
    ensures Stamped(Next(db, a).ops[id].events) && EventsBefore(Next(db, a).ops[id], LaterMoment(a, now))
  {
    if id in db.ops {
      assert EventsBefore(db.ops[id], LaterMoment(a, now));
      StepGrowsLog(db, a, id);
      if Next(db, a).ops[id] != db.ops[id] {
        GrownIsStamped(db.ops[id], Next(db, a).ops[id], Moment(a).value);
      }
    } else {
      assert a.Create? && Next(db, a).ops[id] == NewOperation(a.optype, a.device, a.at);
    }
  }

  /** In every reachable state, under a clock that does not run backwards, clients read the events of
      every operation in the order in which they were written, and the last status among them is the row's. */
  lemma {:induction false} RunKeepsLogs(actions: seq<Action>, from: int)
    requires Possible(EMPTY, actions) && InTime(actions, from)
    ensures var db := Run(EMPTY, actions);
      && AllConsistent(db) && LogsStamped(db, LastMoment(actions, from))
      && forall id :: id in db.ops ==> LastStatus(Listed(db.ops[id].events)) == Some(db.ops[id].status)
  {
    var db := Run(EMPTY, actions);
    if actions != [] {
      var n := |actions| - 1;
      var before, now := Run(EMPTY, actions[..n]), LastMoment(actions[..n], from);
      RunKeepsLogs(actions[..n], from);
      StepKeepsAllConsistent(before, actions[n]);
      forall id | id in db.ops
        ensures Stamped(db.ops[id].events) && EventsBefore(db.ops[id], LastMoment(actions, from))
      {
        StepKeepsLogStamped(before, actions[n], id, now);
      }
    }
    forall id | id in db.ops
      ensures LastStatus(Listed(db.ops[id].events)) == Some(db.ops[id].status)
    {
      StampedIsListed(db.ops[id].events);
    }
  }

  // ----- during a service call -----

  /** Steps of workers, callbacks and timeouts. Nobody else knows the id of an operation still being created. */
  predicate EnvironmentStep(db: Db, a: Action) {
    match a
    case Report(id, _, _, _, _) => db.phase != Creating(id)
    case Note(_, _, _, _) => true
    case TimeoutStale(_, _) => true
    case MarkStarted(_, _) => true
    case Pop(_, _) => true
    case Requeue(_, _, _, _) => true
    case _ => false
  }

  /** What a service call may rely on while it is under way. */
  ghost predicate ServiceRely(db: Db, after: Db) {
    && OpsEvolved(db.ops, after.ops) && after.ops.Keys == db.ops.Keys && after.phase == db.phase
    && (db.phase.Creating? && db.phase.op in db.ops ==> after.ops[db.phase.op].status == db.ops[db.phase.op].status)
    && forall q :: q in after.queue ==> exists p :: p in db.queue && SameCommand(after.queue[q], db.queue[p])
  }

  lemma EnvironmentRely(db: Db, a: Action)
    requires Inv(db) && Enabled(db, a) && EnvironmentStep(db, a)
    requires db.phase.Creating? ==> db.ops[db.phase.op].status == Queued
    ensures ServiceRely(db, Next(db, a))
  {
    StepEvolves(db, a);
    assert db.lastId + 1 !in db.queue;
    forall q | q in Next(db, a).queue ensures exists p :: p in db.queue && SameCommand(Next(db, a).queue[q], db.queue[p]) {
      RowCarriedOver(db, a, q);
    }
    PhaseCarriedOver(db, a);
  }

  lemma PhaseCarriedOver(db: Db, a: Action)
    requires Enabled(db, a) && EnvironmentStep(db, a)
    requires db.phase.Creating? ==> db.phase.op in db.ops && db.ops[db.phase.op].status == Queued
    ensures Next(db, a).ops.Keys == db.ops.Keys && Next(db, a).phase == db.phase
    ensures db.phase.Creating? ==> Next(db, a).ops[db.phase.op].status == Queued
  {
  }

  lemma RowCarriedOver(db: Db, a: Action, q: nat)
    requires Enabled(db, a) && EnvironmentStep(db, a) && q in Next(db, a).queue && db.lastId + 1 !in db.queue
    ensures exists p :: p in db.queue && SameCommand(Next(db, a).queue[q], db.queue[p])
  {
    if q in db.queue {
      assert SameCommand(Next(db, a).queue[q], db.queue[q]);
    } else {
      assert SameCommand(Next(db, a).queue[q], db.queue[a.q]);
    }
  }

  lemma ServiceRelyTransitive(a: Db, b: Db, c: Db)
    requires ServiceRely(a, b) && ServiceRely(b, c)
    ensures ServiceRely(a, c)
  {
    forall q | q in c.queue ensures exists p :: p in a.queue && SameCommand(c.queue[q], a.queue[p]) {
      var r :| r in b.queue && SameCommand(c.queue[q], b.queue[r]);
      var p :| p in a.queue && SameCommand(b.queue[r], a.queue[p]);
    }
    forall id | id in a.ops ensures Evolved(a.ops[id], c.ops[id]) {
      assert Evolved(a.ops[id], b.ops[id]) && Evolved(b.ops[id], c.ops[id]);
    }
  }

  ghost predicate EnvironmentRun(db: Db, actions: seq<Action>) {
    forall k :: 0 <= k < |actions| ==> EnvironmentStep(Run(db, actions[..k]), actions[k])
  }

  /** However many steps the others take during a service call, that is all they can do. */
  lemma {:induction false} EnvironmentRunRely(db: Db, actions: seq<Action>)
    requires Inv(db) && Possible(db, actions) && EnvironmentRun(db, actions)
    requires db.phase.Creating? ==> db.ops[db.phase.op].status == Queued
    ensures ServiceRely(db, Run(db, actions))
  {
    if actions != [] {
      var n := |actions| - 1;
      var before := Run(db, actions[..n]);
      assert forall k :: 0 <= k < n ==> actions[..n][..k] == actions[..k];
      EnvironmentRunRely(db, actions[..n]);
      RunKeepsInv(db, actions[..n]);
      EnvironmentRely(before, actions[n]);
      ServiceRelyTransitive(db, before, Run(db, actions));
    } else {
      assert forall q :: q in db.queue ==> SameCommand(db.queue[q], db.queue[q]);
    }
  }
}
