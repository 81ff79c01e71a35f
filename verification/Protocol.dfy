/** The shared database of operations and queued commands, and every step that the service, the
    workers and the callbacks take on it. One step is one committed repository call. */
module Protocol {
  import opened Options
  import opened OperationLog

  type OpId = nat
  type DeviceId = nat

  datatype Path = StartPath | StopPath | StatusPath | ConfigPath | SleepDisablePath | SleepIntervalPath
                | CollectPath | OtherPath(name: string)
  datatype Verb = Get | Post

  /** Whose worker handles a command: a registered device, or a discovery of an address. */
  datatype Target = Registered(device: DeviceId) | Discovery(url: string)

  /** The stable part of a JSON payload, without operation id and callback URL. */
  datatype Payload = NoFields | TargetGrams(grams: real) | DeviceType(name: string) | Fields(text: string)

  datatype Command = Command(
    op: OpId, target: Target, url: string, path: Path, verb: Verb, payload: Option<Payload>, startedAt: Option<int>)

  /** What a service call still has to do; service calls exclude one another, nothing else does. */
  datatype ServicePhase = Free | Creating(op: OpId) | Stopping(device: DeviceId) | Clearing(device: DeviceId)

  /** Queue ids come from an AUTOINCREMENT column: `lastId` only grows. */
  datatype Db = Db(ops: map<OpId, Operation>, queue: map<nat, Command>, lastId: nat, phase: ServicePhase)

  const EMPTY := Db(map[], map[], 0, Free)

  // ----- queries -----

  predicate IsStart(kind: OperationType) { kind.WateringStart? || kind.Fill? }

  predicate ActiveStart(op: Operation, d: DeviceId) {
    IsStart(op.kind) && op.device == Some(d) && !Terminal(op.status)
  }

  ghost predicate NoActiveStart(db: Db, d: DeviceId) {
    forall id :: id in db.ops ==> !ActiveStart(db.ops[id], d)
  }

  predicate SameKey(a: Command, b: Command) {
    a.url == b.url && a.path == b.path && a.verb == b.verb && a.payload == b.payload
  }

  ghost predicate NoDuplicate(db: Db, c: Command) {
    forall q :: q in db.queue ==> !SameKey(db.queue[q], c)
  }

  /** An operation that left the states in which only its queued command can move it on. */
  predicate Settled(op: Operation) { Rank(op.status) >= 2 }

  ghost predicate HasCommand(db: Db, id: OpId) {
    exists q :: q in db.queue && db.queue[q].op == id
  }

  /** Everything of a command but the time it was first tried. */
  predicate SameCommand(a: Command, b: Command) { a.(startedAt := None) == b.(startedAt := None) }

  /** `started_at or other`: a missing time and a zero both count as absent. */
  function OrElse(t: Option<int>, other: int): int {
    if t.Some? && t.value != 0 then t.value else other
  }

  // ----- steps -----

  datatype Action =
    // the operation log
    | Report(id: OpId, status: Status, detail: Detail, kind: EventType, at: int)
    | Note(id: OpId, name: string, text: string, at: int)
    | TimeoutStale(maxWait: int, at: int)
    // the queue, as the workers use it
    | MarkStarted(q: nat, at: int)
    | Pop(q: nat, at: int)
    | Requeue(q: nat, command: Command, started: int, at: int)
    // the service
    | Create(id: OpId, optype: OperationType, device: Option<DeviceId>, at: int)
    | Enqueue(command: Command, at: int)
    | Abandon(id: OpId, at: int)
    | CancelStarts(device_: DeviceId, at: int)
    | DropStarts(device_: DeviceId)
    | DropDevice(device_: DeviceId)
    | CancelDevice(device_: DeviceId, at: int)

  function UpdateOp(db: Db, id: OpId, op: Operation): Db { db.(ops := db.ops[id := op]) }

  function WithNote(db: Db, id: OpId, name: string, text: string, at: int): Db {
    if id in db.ops then UpdateOp(db, id, Trace(db.ops[id], name, Plain(text), at)) else db
  }

  predicate Stale(op: Operation, maxWait: int, at: int) {
    (op.status == Accepted || op.status == Running) && op.kind != StatisticsCollection && op.updatedAt <= at - maxWait
  }

  function Requeued(c: Command, started: int): Command { c.(startedAt := Some(OrElse(c.startedAt, started))) }

  /** The command under `q` goes to the tail: deleted and inserted again in one transaction. */
  function Moved(db: Db, q: nat, c: Command): Db {
    db.(queue := (db.queue - {q})[db.lastId + 1 := c], lastId := db.lastId + 1)
  }

  function Next(db: Db, a: Action): Db {
    match a
    case Report(id, status, detail, kind, at) =>
      if id in db.ops then UpdateOp(db, id, Record(db.ops[id], status, detail, kind, at)) else db
    case Note(id, name, text, at) => WithNote(db, id, name, text, at)
    case TimeoutStale(maxWait, at) =>
      db.(ops := map id | id in db.ops ::
        if Stale(db.ops[id], maxWait, at) then Record(db.ops[id], Timeout, Plain("no controller result"), StatusChanged, at)
        else db.ops[id])
    case MarkStarted(q, at) =>
      if q in db.queue && db.queue[q].startedAt.None?
      then db.(queue := db.queue[q := db.queue[q].(startedAt := Some(at))]) else db
    case Pop(q, at) =>
      if q in db.queue then WithNote(db.(queue := db.queue - {q}), db.queue[q].op, "command.removed", "", at) else db
    case Requeue(q, c, started, at) =>
      if q in db.queue then
        WithNote(Moved(db, q, Requeued(c, started)), c.op, "command.requeued", "", at)
      else db
    case Create(id, optype, device, at) =>
      db.(ops := db.ops[id := NewOperation(optype, device, at)], phase := if optype.CallbackProbe? then db.phase else Creating(id))
    case Enqueue(c, at) =>
      WithNote(db.(queue := db.queue[db.lastId + 1 := c], lastId := db.lastId + 1, phase := Free), c.op, "command.queued", "", at)
    case Abandon(id, at) =>
      if id in db.ops
      then
        UpdateOp(db, id, Record(db.ops[id], Cancelled, Plain("duplicate command already queued"), StatusChanged, at))
          .(phase := Free)
      else db.(phase := Free)
    case CancelStarts(d, at) =>
      db.(ops := map id | id in db.ops ::
        if ActiveStart(db.ops[id], d) then Cancel(db.ops[id], Plain("cancelled by watering stop"), at) else db.ops[id],
        phase := Stopping(d))
    case DropStarts(d) =>
      db.(queue := map q | q in db.queue && !(db.queue[q].target == Registered(d) && db.queue[q].path == StartPath) :: db.queue[q],
          phase := Free)
    case DropDevice(d) =>
      db.(queue := map q | q in db.queue && db.queue[q].target != Registered(d) :: db.queue[q], phase := Clearing(d))
    case CancelDevice(d, at) =>
      db.(ops := map id | id in db.ops ::
        if db.ops[id].device == Some(d) then Cancel(db.ops[id], Plain("cancelled by device queue clear"), at) else db.ops[id],
        phase := Free)
  }

  /** When a step may happen: what the code has checked, or done before, when it takes the step. */
  ghost predicate Enabled(db: Db, a: Action) {
    match a
    case Report(id, status, detail, kind, at) => IsStatusEvent(kind)
    case Note(_, _, _, _) => true
    case TimeoutStale(_, _) => true
    case MarkStarted(_, _) => true
    // a worker pops a command after its operation has left "queued" and "sending"
    case Pop(q, _) => q in db.queue && db.queue[q].op in db.ops ==> Settled(db.ops[db.queue[q].op])
    // a worker requeues the command it has read under that id, with the start it has noted for it
    case Requeue(q, c, started, _) => q in db.queue ==> (
      && SameCommand(db.queue[q], c)
      && db.queue[q].startedAt.Some? && OrElse(c.startedAt, started) <= db.queue[q].startedAt.value)
    // service steps: a fresh id; a start only for a device without an active start
    case Create(id, optype, device, _) =>
      && id !in db.ops && (optype.CallbackProbe? || db.phase == Free)
      && (IsStart(optype) ==> device.Some? && NoActiveStart(db, device.value))
    case Enqueue(c, _) =>
      && db.phase == Creating(c.op) && c.startedAt == None && NoDuplicate(db, c) && c.op in db.ops
      && Matches(c, db.ops[c.op])
    case Abandon(id, _) => db.phase == Creating(id)
    case CancelStarts(_, _) => db.phase == Free
    case DropStarts(d) => db.phase == Stopping(d)
    case DropDevice(_) => db.phase == Free
    case CancelDevice(d, _) => db.phase == Clearing(d)
  }

  /** A command goes to its operation's device, and watering commands belong to watering operations;
      a probe of the callback has none. */
  predicate Matches(c: Command, op: Operation) {
    && !op.kind.CallbackProbe?
    && (c.target.Registered? ==> op.device == Some(c.target.device))
    && (c.target.Discovery? ==> op.device == None)
    && (c.path == StartPath ==> IsStart(op.kind))
    && (c.path == StopPath ==> op.kind == WateringStop)
  }

  // ----- the invariant -----

  /** The operation may still be without a command while the service call at hand is not finished. */
  predicate InProgress(db: Db, id: OpId)
    requires id in db.ops
  {
    db.phase == Creating(id) || (db.phase.Clearing? && db.ops[id].device == Some(db.phase.device))
  }

  predicate Waiting(op: Operation) { !Settled(op) && !op.kind.CallbackProbe? }

  ghost predicate RowsMatch(db: Db) {
    forall q :: q in db.queue ==>
      0 < q <= db.lastId && db.queue[q].op in db.ops && Matches(db.queue[q], db.ops[db.queue[q].op])
  }

  /** No operation that is waiting for its command has lost it. */
  ghost predicate NothingLost(db: Db) {
    forall id :: id in db.ops && Waiting(db.ops[id]) && !InProgress(db, id) ==> HasCommand(db, id)
  }

  ghost predicate UniqueKeys(db: Db) {
    forall p, q :: p in db.queue && q in db.queue && p != q ==> !SameKey(db.queue[p], db.queue[q])
  }

  ghost predicate OneCommandEach(db: Db) {
    forall p, q :: p in db.queue && q in db.queue && p != q ==> db.queue[p].op != db.queue[q].op
  }

  ghost predicate OneStartEach(db: Db) {
    forall i, j, d :: i in db.ops && j in db.ops && ActiveStart(db.ops[i], d) && ActiveStart(db.ops[j], d) ==> i == j
  }

  ghost predicate PhaseHolds(db: Db) {
    && (db.phase.Creating? ==> db.phase.op in db.ops && !HasCommand(db, db.phase.op))
    && (db.phase.Stopping? ==> NoActiveStart(db, db.phase.device))
  }

  ghost predicate Inv(db: Db) {
    RowsMatch(db) && NothingLost(db) && UniqueKeys(db) && OneCommandEach(db) && OneStartEach(db) && PhaseHolds(db)
  }
}
