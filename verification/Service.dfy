/** The application layer: service calls as sequences of repository calls, with the workers and the
    callbacks going on between any two of them. A call begins with its first read that matters for what it does. */
module Service {
  import opened Options
  import opened OperationLog
  import opened Protocol
  import opened ProtocolSafety
  import opened ProtocolCalls
  import opened Database

  datatype Device = Device(id: DeviceId, url: string, isTank: bool)

  datatype Result = Ok(id: OpId) | Refused(reason: string)

  function StartCommand(op: OpId, d: Device, grams: real): Command {
    Command(op, Registered(d.id), d.url, StartPath, Post, Some(TargetGrams(grams)), None)
  }

  function StopCommand(op: OpId, d: Device): Command {
    Command(op, Registered(d.id), d.url, StopPath, Post, Some(NoFields), None)
  }

  function ConfigCommand(op: OpId, d: Device): Command {
    Command(op, Registered(d.id), d.url, ConfigPath, Post,
            Some(DeviceType(if d.isTank then "tank" else "plant")), None)
  }

  /** The row says that the request `c` is queued already. */
  ghost predicate QueuedAs(db: Db, id: OpId, c: Command) {
    exists q :: q in db.queue && db.queue[q].op == id && SameKey(db.queue[q], c)
  }

  /** The request is queued already, for an operation that was cancelled: no worker will send it. */
  ghost predicate CancelledDuplicate(db: Db, c: Command) {
    exists q :: q in db.queue && SameKey(db.queue[q], c) && db.queue[q].op in db.ops && db.ops[db.queue[q].op].status == Cancelled
  }

  /** The calls that create an operation and queue its command. */
  function Creates(c: Command, optype: OperationType, device: Option<DeviceId>): seq<Action> {
    [Create(c.op, optype, device, 0), Enqueue(c, 0)]
  }

  /** Those that confirm the configuration of a device. */
  function Confirms(configId: OpId, d: Device): seq<Action> {
    Creates(ConfigCommand(configId, d), Other("config"), Some(d.id))
  }

  /** The notes of a stop that has cancelled the active start `started`. */
  function Notes(stop: OpId, started: Option<OpId>): seq<Action> {
    if started.None? then []
    else [Note(started.value, "operation.related", "cancelled by watering stop", 0),
          Note(stop, "operation.related", "watering starts cancelled", 0)]
  }

  /** What a stop does once it is queued: the active start is cancelled, that is noted on both sides, and the
      queued start commands are dropped. */
  function StopsStarts(d: DeviceId, stop: OpId, started: Option<OpId>): seq<Action> {
    [Protocol.CancelStarts(d, 0)] + Notes(stop, started) + [DropStarts(d)]
  }

  /** Every command queued now was queued then. */
  ghost predicate RowsFrom(before: Db, after: Db) {
    forall q :: q in after.queue ==> exists p :: p in before.queue && SameCommand(after.queue[q], before.queue[p])
  }

  /** Every command queued now was queued then, or is `c`. */
  ghost predicate RowsOrNew(before: Db, after: Db, c: Command) {
    forall q :: q in after.queue ==>
      SameCommand(after.queue[q], c) || exists p :: p in before.queue && SameCommand(after.queue[q], before.queue[p])
  }

  /** Every start command queued now was queued then. */
  ghost predicate StartsFrom(before: Db, after: Db) {
    forall q :: q in after.queue && after.queue[q].path == StartPath ==>
      exists p :: p in before.queue && SameCommand(after.queue[q], before.queue[p])
  }

  /** The answer `id` to a fill of a device without an active start: `c` was looked for in the state `looked`.
      A new start exactly when no equal command was queued; otherwise the operation of that command, which
      was queued before the call, is over if it is the device's, and nothing new is queued. */
  ghost predicate FillLooked(before: Db, looked: Db, after: Db, id: OpId, d: Device, c: Command) {
    && NoActiveStart(looked, d.id) && OpsEvolved(before.ops, looked.ops)
    && (NoDuplicate(before, c) ==> NoDuplicate(looked, c))
    && (id == c.op <==> NoDuplicate(looked, c))
    && (id == c.op ==> id in after.ops && ActiveStart(after.ops[id], d.id) && QueuedAs(after, id, c))
    && (id != c.op ==> (
      && after == looked && QueuedAs(before, id, c) && QueuedAs(looked, id, c)
      && id in looked.ops && (looked.ops[id].device == Some(d.id) ==> Terminal(looked.ops[id].status))))
    && id in after.ops && (after.ops[id].status == Cancelled <==> CancelledDuplicate(looked, c))
  }

  /** `id` is a config operation of the device that no other was updated after. */
  predicate LatestConfig(ops: map<OpId, Operation>, d: DeviceId, id: OpId) {
    id in ConfigsOf(ops, d) && forall other :: other in ConfigsOf(ops, d) ==> ops[other].updatedAt <= ops[id].updatedAt
  }

  function ConfigsOf(ops: map<OpId, Operation>, d: DeviceId): set<OpId> {
    set id | id in ops && ops[id].kind == Other("config") && ops[id].device == Some(d)
  }

  /** What was read about the configuration, and what was done about it: `read` is the state in which the latest
      config operation was read, `sought` the one in which an equal queued command was looked for. */
  datatype Confirmation = Confirmation(read: Side, sought: Side, unconfirmed: bool)

  /** Read from `ops`: the latest config operation has not succeeded; or it has, or there is none. */
  ghost predicate ConfigReadAs(ops: map<OpId, Operation>, d: DeviceId, unconfirmed: bool) {
    if unconfirmed then exists id :: LatestConfig(ops, d, id) && ops[id].status != Success
    else ConfigsOf(ops, d) == {} || exists id :: LatestConfig(ops, d, id) && ops[id].status == Success
  }

  /** Between `before` and `after` the configuration was confirmed exactly when it was read as unconfirmed and
      no equal command was queued, and no other call was made. */
  ghost predicate ConfirmedAs(before: Side, x: Confirmation, after: Side, configId: OpId, d: Device) {
    && Did(before, x.read, []) && ConfigReadAs(x.read.db.ops, d.id, x.unconfirmed) && Did(x.read, x.sought, [])
    && Did(x.sought, after,
           if x.unconfirmed && NoDuplicate(x.sought.db, ConfigCommand(configId, d)) then Confirms(configId, d) else [])
  }

  lemma ConfirmedAmid(before: Side, start: Side, x: Confirmation, end: Side, after: Side, configId: OpId, d: Device)
    requires Did(before, start, []) && ConfirmedAs(start, x, end, configId, d) && Did(end, after, [])
    ensures ConfirmedAs(before, x, after, configId, d)
  {
    DidChain(before, start, x.read, [], []);
    DidChain(x.sought, end, after,
             if x.unconfirmed && NoDuplicate(x.sought.db, ConfigCommand(configId, d)) then Confirms(configId, d) else [], []);
  }

  class SmartWateringService {
    const store: Store

    constructor (store: Store)
      ensures this.store == store
    {
      this.store := store;
    }

    /** The operation exists now; its command is still to be queued. */
    method Begin(c: Command, optype: OperationType, device: Option<DeviceId>, now: int)
      requires Inv(store.View()) && store.phase == Free && c.op !in store.ops && !optype.CallbackProbe?
      requires IsStart(optype) ==> device.Some? && NoActiveStart(store.View(), device.value)
      modifies store
      ensures Inv(store.View()) && store.phase == Creating(c.op) && store.ops.Keys == old(store.ops).Keys + {c.op}
      ensures var op := store.ops[c.op]; op.status == Queued && op.kind == optype && op.device == device
      ensures OpsEvolved(old(store.ops), store.ops) && RowsFrom(old(store.View()), store.View())
      ensures Did(old(store.Side()), store.Side(), [Create(c.op, optype, device, 0)])
    {
      ghost var a := store.Side();
      store.Create(c.op, optype, device, now);
      ghost var b := store.Side();
      CreatedAs(a.db, c.op, optype, device, now);
      store.InterfereDuringCall();
      DidChain(a, b, store.Side(), [Create(c.op, optype, device, 0)], []);
      EvolvedChain(a.db.ops, b.db.ops, store.ops);
      RowsChain(a.db, b.db, store.View());
      assert Evolved(b.db.ops[c.op], store.ops[c.op]);
    }

    /** Queue the command of the operation just created; an equal command in the queue wins over it. */
    method QueueCreated(c: Command, now: int) returns (r: OpId)
      requires Inv(store.View()) && store.phase == Creating(c.op) && store.ops[c.op].status == Queued
      requires Matches(c, store.ops[c.op]) && c.startedAt == None
      modifies store
      ensures Inv(store.View()) && store.phase == Free && QueuedAs(store.View(), r, c)
      ensures store.ops.Keys == old(store.ops).Keys && OpsEvolved(old(store.ops), store.ops)
      ensures r == c.op <==> NoDuplicate(old(store.View()), c)
      ensures if r == c.op then store.ops[r].status == Queued else store.ops[c.op].status == Cancelled
      ensures r in store.ops && RowsOrNew(old(store.View()), store.View(), c)
      ensures Did(old(store.Side()), store.Side(), [if r == c.op then Enqueue(c, 0) else Abandon(c.op, 0)])
    {
      ghost var before := store.View();
      r := store.EnqueueCommand(c, now);
      if r != c.op {
        AbandonCancels(before, c.op, now);
        store.AbandonOperation(c.op, now);
      } else {
        EnqueueQueues(before, c, now);
      }
    }

    /** Create an operation and queue its command, exactly when no equal command is queued. Otherwise the
        operation of that command is returned, which is a cancelled one exactly when that command's was
        cancelled before, and nothing has changed: as nobody else queues commands during the call, the
        duplicate is always found before an operation is created, and none is ever abandoned. */
    method EnqueueOperation(c: Command, optype: OperationType, device: Option<DeviceId>, now: int) returns (r: OpId)
      requires Inv(store.View()) && store.phase == Free && c.op !in store.ops && c.startedAt == None
      requires !optype.CallbackProbe? && Matches(c, NewOperation(optype, device, now))
      requires IsStart(optype) ==> device.Some? && NoActiveStart(store.View(), device.value)
      modifies store
      ensures Inv(store.View()) && store.phase == Free && OpsEvolved(old(store.ops), store.ops)
      ensures r in store.ops && QueuedAs(store.View(), r, c)
      ensures r == c.op <==> NoDuplicate(old(store.View()), c)
      ensures store.ops[r].status == Cancelled <==> CancelledDuplicate(old(store.View()), c)
      ensures r == c.op ==> (
        && store.ops.Keys == old(store.ops).Keys + {r}
        && store.ops[r].status == Queued && store.ops[r].kind == optype && store.ops[r].device == device)
      ensures r != c.op ==> store.View() == old(store.View())
      ensures RowsOrNew(old(store.View()), store.View(), c)
      ensures Did(old(store.Side()), store.Side(), if r == c.op then Creates(c, optype, device) else [])
    {
      var duplicate := store.FindDuplicate(c);
      if duplicate.Some? {
        TheDuplicate(store.View(), duplicate.value, c);
        DidNothing(store.Side());
        return duplicate.value;
      }
      CreateAndQueue(c, optype, device, now);
      r := c.op;
    }

    /** No equal command is queued, and as nobody else queues any during the call, none will be. */
    method CreateAndQueue(c: Command, optype: OperationType, device: Option<DeviceId>, now: int)
      requires Inv(store.View()) && store.phase == Free && c.op !in store.ops && c.startedAt == None
      requires !optype.CallbackProbe? && Matches(c, NewOperation(optype, device, now)) && NoDuplicate(store.View(), c)
      requires IsStart(optype) ==> device.Some? && NoActiveStart(store.View(), device.value)
      modifies store
      ensures Inv(store.View()) && store.phase == Free && OpsEvolved(old(store.ops), store.ops)
      ensures c.op in store.ops && QueuedAs(store.View(), c.op, c)
      ensures store.ops.Keys == old(store.ops).Keys + {c.op}
      ensures var op := store.ops[c.op]; op.status == Queued && op.kind == optype && op.device == device
      ensures RowsOrNew(old(store.View()), store.View(), c)
      ensures Did(old(store.Side()), store.Side(), Creates(c, optype, device))
    {
      ghost var before := store.Side();
      store.InterfereDuringCall();
      if IsStart(optype) { StillNoStart(before.db, store.View(), c.op, device.value); }
      StillNoDuplicate(before.db, store.View(), c);
      ghost var between := store.Side();
      BeginAndQueue(c, optype, device, now);
      DidChain(before, between, store.Side(), [], Creates(c, optype, device));
      EvolvedChain(before.db.ops, between.db.ops, store.ops);
      RowsOrNewLater(before.db, between.db, store.View(), c);
    }

    method BeginAndQueue(c: Command, optype: OperationType, device: Option<DeviceId>, now: int)
      requires Inv(store.View()) && store.phase == Free && c.op !in store.ops && c.startedAt == None
      requires !optype.CallbackProbe? && Matches(c, NewOperation(optype, device, now)) && NoDuplicate(store.View(), c)
      requires IsStart(optype) ==> device.Some? && NoActiveStart(store.View(), device.value)
      modifies store
      ensures Inv(store.View()) && store.phase == Free && OpsEvolved(old(store.ops), store.ops)
      ensures c.op in store.ops && QueuedAs(store.View(), c.op, c)
      ensures store.ops.Keys == old(store.ops).Keys + {c.op}
      ensures var op := store.ops[c.op]; op.status == Queued && op.kind == optype && op.device == device
      ensures RowsOrNew(old(store.View()), store.View(), c)
      ensures Did(old(store.Side()), store.Side(), Creates(c, optype, device))
    {
      ghost var a := store.Side();
      Begin(c, optype, device, now);
      StillNoDuplicate(a.db, store.View(), c);
      ghost var b := store.Side();
      var r := QueueCreated(c, now);
      DidChain(a, b, store.Side(), [Create(c.op, optype, device, 0)], [Enqueue(c, 0)]);
      assert [Create(c.op, optype, device, 0)] + [Enqueue(c, 0)] == Creates(c, optype, device);
      EvolvedChain(a.db.ops, b.db.ops, store.ops);
      assert Evolved(b.db.ops[c.op], store.ops[c.op]);
      RowsOrNewLater(a.db, b.db, store.View(), c);
    }

    /** Some active start of the device; the invariant says that there is at most one. */
    method LatestNonTerminalWateringStart(d: DeviceId) returns (r: Option<OpId>)
      ensures r.None? ==> NoActiveStart(store.View(), d)
      ensures r.Some? ==> r.value in store.ops && ActiveStart(store.ops[r.value], d)
    {
      if id :| id in store.ops && ActiveStart(store.ops[id], d) {
        return Some(id);
      }
      return None;
    }

    /** Is the latest config operation of the device one that has not succeeded? */
    method ConfigNotConfirmed(d: DeviceId) returns (r: bool)
      ensures ConfigReadAs(store.ops, d, r)
      ensures forall id :: id in store.ops && LatestConfig(store.ops, d, id) ==>
        && store.ops[id].kind == Other("config") && store.ops[id].device == Some(d)
        && forall other :: other in store.ops && store.ops[other].kind == Other("config") && store.ops[other].device == Some(d) ==>
             store.ops[other].updatedAt <= store.ops[id].updatedAt
    {
      var rows := ConfigsOf(store.ops, d);
      if rows == {} {
        return false;
      }
      var latest :| latest in rows;
      var todo := rows - {latest};
      while todo != {}
        invariant latest in rows && todo <= rows
        invariant forall other :: other in rows - todo ==> store.ops[other].updatedAt <= store.ops[latest].updatedAt
      {
        var id :| id in todo;
        if store.ops[id].updatedAt > store.ops[latest].updatedAt { latest := id; }
        todo := todo - {id};
      }
      assert LatestConfig(store.ops, d, latest);
      return store.ops[latest].status != Success;
    }

    /** Start watering. `configId` and `startId` are fresh operation ids; `looked` is the state in which an
        equal queued command was looked for. */
    method QueueFill(d: Device, grams: real, configId: OpId, startId: OpId, now: int) returns (r: Result, ghost looked: Side, ghost config: Confirmation)
      requires Inv(store.View()) && store.phase == Free
      requires configId !in store.ops && startId !in store.ops && configId != startId
      modifies store
      ensures Inv(store.View()) && store.phase == Free && OpsEvolved(old(store.ops), store.ops)
      ensures r.Refused? <==> grams <= 0.0 || !d.isTank
      ensures r.Refused? ==> store.Side() == old(store.Side())
      // the start that is active already, and no call is made
      ensures r.Ok? && !NoActiveStart(old(store.View()), d.id) ==>
        r.id in old(store.ops) && ActiveStart(old(store.ops)[r.id], d.id) && Did(old(store.Side()), store.Side(), [])
      // otherwise the new one, exactly when no equal command was queued
      ensures r.Ok? && NoActiveStart(old(store.View()), d.id) ==> (
        && FillLooked(old(store.View()), looked.db, store.View(), r.id, d, StartCommand(startId, d, grams))
        && ConfirmedAs(old(store.Side()), config, looked, configId, d) && StartQueuedFor(store.View(), r.id, d, grams)
        && Did(looked, store.Side(),
               if r.id == startId then Creates(StartCommand(startId, d, grams), WateringStart, Some(d.id)) else []))
    {
      looked := store.Side();
      config := Confirmation(looked, looked, false);
      if grams <= 0.0 {
        return Refused("fill grams must be > 0"), looked, config;
      }
      if !d.isTank {
        return Refused("watering can only be started on tank devices"), looked, config;
      }
      var existing := LatestNonTerminalWateringStart(d.id);
      if existing.Some? {
        store.InterfereDuringCall();
        return Ok(existing.value), looked, config;
      }
      var id;
      id, looked, config := StartAnew(d, grams, configId, startId, now);
      return Ok(id), looked, config;
    }

    /** A fill of a device without an active start. */
    method StartAnew(d: Device, grams: real, configId: OpId, startId: OpId, now: int)
      returns (id: OpId, ghost looked: Side, ghost config: Confirmation)
      requires Inv(store.View()) && store.phase == Free && NoActiveStart(store.View(), d.id)
      requires configId !in store.ops && startId !in store.ops && configId != startId
      modifies store
      ensures Inv(store.View()) && store.phase == Free && OpsEvolved(old(store.ops), store.ops)
      ensures FillLooked(old(store.View()), looked.db, store.View(), id, d, StartCommand(startId, d, grams))
      ensures ConfirmedAs(old(store.Side()), config, looked, configId, d) && StartQueuedFor(store.View(), id, d, grams)
      ensures Did(looked, store.Side(),
                  if id == startId then Creates(StartCommand(startId, d, grams), WateringStart, Some(d.id)) else [])
    {
      ghost var start := store.View();
      config := PrepareFill(d, grams, configId, startId, now);
      looked := store.Side();
      id := EnqueueOperation(StartCommand(startId, d, grams), WateringStart, Some(d.id), now);
      FillAnswered(start, looked.db, store.View(), id, d, StartCommand(startId, d, grams));
      CommandsQueued(store.View(), id, startId, d, grams);
      EvolvedChain(start.ops, looked.db.ops, store.ops);
    }

    /** What comes before the start itself; the others go on before and after. */
    method PrepareFill(d: Device, grams: real, configId: OpId, startId: OpId, now: int) returns (ghost config: Confirmation)
      requires Inv(store.View()) && store.phase == Free && configId !in store.ops && NoActiveStart(store.View(), d.id)
      requires startId !in store.ops && configId != startId
      modifies store
      ensures Inv(store.View()) && store.phase == Free && NoActiveStart(store.View(), d.id) && startId !in store.ops
      ensures OpsEvolved(old(store.ops), store.ops)
      ensures StartsFrom(old(store.View()), store.View())
      ensures ConfirmedAs(old(store.Side()), config, store.Side(), configId, d)
    {
      ghost var a := store.Side();
      store.InterfereDuringCall();
      StillNoStart(a.db, store.View(), configId, d.id);
      ghost var b := store.Side();
      config := ConfirmConfig(d, configId, now);
      ghost var c := store.Side();
      EvolvedChain(a.db.ops, b.db.ops, c.db.ops);
      StartsChain(a.db, b.db, c.db);
      store.InterfereDuringCall();
      ConfirmedAmid(a, b, config, c, store.Side(), configId, d);
      StillNoStart(c.db, store.View(), startId, d.id);
      EvolvedChain(a.db.ops, c.db.ops, store.ops);
      StartsChain(a.db, c.db, store.View());
    }

    /** A tank whose config was never confirmed gets it confirmed first. */
    method ConfirmConfig(d: Device, configId: OpId, now: int) returns (ghost config: Confirmation)
      requires Inv(store.View()) && store.phase == Free && configId !in store.ops && NoActiveStart(store.View(), d.id)
      modifies store
      ensures Inv(store.View()) && store.phase == Free && NoActiveStart(store.View(), d.id)
      ensures store.ops.Keys <= old(store.ops).Keys + {configId} && OpsEvolved(old(store.ops), store.ops)
      ensures StartsFrom(old(store.View()), store.View())
      ensures ConfirmedAs(old(store.Side()), config, store.Side(), configId, d)
    {
      ghost var a := store.Side();
      DidNothing(a);
      var unconfirmed := ConfigNotConfirmed(d.id);
      store.InterfereDuringCall();
      StillNoStart(a.db, store.View(), configId, d.id);
      ghost var b := store.Side();
      config := Confirmation(a, b, unconfirmed);
      DidNothing(b);
      if unconfirmed {
        var id := EnqueueOperation(ConfigCommand(configId, d), Other("config"), Some(d.id), now);
        StillNoStart(b.db, store.View(), configId, d.id);
        EvolvedChain(a.db.ops, b.db.ops, store.ops);
        StartsChain(a.db, b.db, store.View());
      }
    }

    /** Stop watering: queue a stop, cancel every active start and drop the queued start commands. `queued` is
        the state, reached with no other call than those that queue a new stop, in which the stop is queued: it
        names a stop command for the device's URL, one of its own
        exactly when none was queued, and a cancelled one, which no worker will send, exactly when the queued
        one had been cancelled. Later it is still that queued command, or has been dealt with. */
    method QueueStop(d: Device, stopId: OpId, now: int) returns (r: Result, ghost queued: Side, ghost started: Option<OpId>)
      requires Inv(store.View()) && store.phase == Free && stopId !in store.ops
      modifies store
      ensures Inv(store.View()) && store.phase == Free
      ensures r.Refused? <==> !d.isTank
      ensures r.Refused? ==> store.Side() == old(store.Side())
      ensures r.Ok? ==> Did(old(store.Side()), queued,
        if r.id == stopId then Creates(StopCommand(stopId, d), WateringStop, Some(d.id)) else [])
      ensures r.Ok? ==> Did(queued, store.Side(), StopsStarts(d.id, r.id, started)) && CancelledStart(store.View(), d.id, started)
      ensures r.Ok? ==> NoActiveStart(store.View(), d.id) && NoQueuedStart(store.View(), d.id)
      ensures r.Ok? ==> StopNamed(queued.db, r.id, StopCommand(stopId, d)) && StopQueuedFor(queued.db, r.id, d)
      ensures r.Ok? ==> (r.id == stopId <==> NoDuplicate(old(store.View()), StopCommand(stopId, d)))
      ensures r.Ok? && r.id == stopId ==> queued.db.ops[stopId].device == Some(d.id) && queued.db.ops[stopId].status == Queued
      ensures r.Ok? ==>
        (queued.db.ops[r.id].status == Cancelled <==> CancelledDuplicate(old(store.View()), StopCommand(stopId, d)))
      ensures r.Ok? ==> OpsEvolved(old(store.ops), queued.db.ops) && OpsEvolved(queued.db.ops, store.ops)
      ensures r.Ok? ==> Settled(store.ops[r.id]) || QueuedAs(store.View(), r.id, StopCommand(stopId, d))
    {
      queued, started := store.Side(), None;
      if !d.isTank {
        return Refused("watering can only be stopped on tank devices"), queued, started;
      }
      var c := StopCommand(stopId, d);
      var id := EnqueueOperation(c, WateringStop, Some(d.id), now);
      queued := store.Side();
      StopIsNamed(queued.db, id, c);
      CommandsQueued(queued.db, id, stopId, d, 0.0);
      started := StopStarts(d.id, id, c, now);
      return Ok(id), queued, started;
    }

    /** The second half of a stop, with the others going on between its steps. */
    method StopStarts(d: DeviceId, stop: OpId, c: Command, now: int) returns (ghost started: Option<OpId>)
      requires Inv(store.View()) && store.phase == Free && StopNamed(store.View(), stop, c)
      modifies store
      ensures Inv(store.View()) && store.phase == Free && NoActiveStart(store.View(), d) && NoQueuedStart(store.View(), d)
      ensures OpsEvolved(old(store.ops), store.ops) && stop in store.ops
      ensures Settled(store.ops[stop]) || QueuedAs(store.View(), stop, c)
      ensures Did(old(store.Side()), store.Side(), StopsStarts(d, stop, started)) && CancelledStart(store.View(), d, started)
    {
      ghost var queued := store.Side();
      started := CancelStarts(d, stop, now);
      ghost var cancelled := store.Side();
      StartsDropped(queued.db, cancelled.db, d);
      store.DropPendingWateringStart(d);
      DidChain(queued, cancelled, store.Side(), [Protocol.CancelStarts(d, 0)] + Notes(stop, started), [DropStarts(d)]);
      StopStillQueued(queued.db, store.View(), stop, c);
    }

    /** Cancel the active starts; the others go on before and afterwards. */
    method CancelStarts(d: DeviceId, stop: OpId, now: int) returns (ghost started: Option<OpId>)
      requires Inv(store.View()) && store.phase == Free && stop in store.ops
      modifies store
      ensures Inv(store.View()) && store.phase == Stopping(d)
      ensures OpsEvolved(old(store.ops), store.ops) && RowsFrom(old(store.View()), store.View())
      ensures Did(old(store.Side()), store.Side(), [Protocol.CancelStarts(d, 0)] + Notes(stop, started))
      ensures CancelledStart(store.View(), d, started)
    {
      ghost var before := store.Side();
      var cancelled;
      cancelled, started := CancelNow(d, now);
      ghost var b := store.Side();
      RelateStops(d, stop, cancelled, started, now);
      DidChain(before, b, store.Side(), [Protocol.CancelStarts(d, 0)], Notes(stop, started));
      EvolvedChain(before.db.ops, b.db.ops, store.ops);
      RowsChain(before.db, b.db, store.View());
      CancelledStays(b.db, store.View(), d, started);
    }

    /** The step that cancels, after whatever the others have done. */
    method CancelNow(d: DeviceId, now: int) returns (cancelled: set<OpId>, ghost started: Option<OpId>)
      requires Inv(store.View()) && store.phase == Free
      modifies store
      ensures Inv(store.View()) && store.phase == Stopping(d) && cancelled == AsSet(started)
      ensures OpsEvolved(old(store.ops), store.ops) && RowsFrom(old(store.View()), store.View())
      ensures Did(old(store.Side()), store.Side(), [Protocol.CancelStarts(d, 0)]) && CancelledStart(store.View(), d, started)
    {
      ghost var before := store.Side();
      store.InterfereDuringCall();
      ghost var a := store.Side();
      StepEvolves(a.db, Protocol.CancelStarts(d, now));
      cancelled := store.CancelActiveWateringStarts(d, now);
      DidChain(before, a, store.Side(), [], [Protocol.CancelStarts(d, 0)]);
      EvolvedChain(before.db.ops, a.db.ops, store.ops);
      started := TheStart(a.db, d, cancelled);
      StartIsCancelled(a.db, store.View(), d, started);
    }

    /** Note on both sides which starts the stop has cancelled, with the others going on in between. */
    method RelateStops(d: DeviceId, stop: OpId, cancelled: set<OpId>, ghost started: Option<OpId>, now: int)
      requires Inv(store.View()) && store.phase == Stopping(d)
      requires cancelled == AsSet(started)
      modifies store
      ensures Inv(store.View()) && store.phase == Stopping(d)
      ensures NotesMade(old(store.Side()), store.Side(), Notes(stop, started))
    {
      ghost var a := store.Side();
      var todo := cancelled;
      ghost var notes := [];
      RowsReflexive(a.db);
      DidNothing(a);
      while todo != {}
        invariant Inv(store.View()) && store.phase == Stopping(d) && todo <= cancelled
        invariant NotesMade(a, store.Side(), notes) && notes == if todo == {} then Notes(stop, started)[..|cancelled|] else []
      {
        var id :| id in todo;
        notes := NoteAmidOthers(a, notes, id, "cancelled by watering stop", now);
        todo := todo - {id};
      }
      assert notes == if started.Some? then [Notes(stop, started)[0]] else [];
      if cancelled != {} {
        notes := NoteAmidOthers(a, notes, stop, "watering starts cancelled", now);
      }
      assert notes == Notes(stop, started);
    }

    /** One note more, after whatever the others have done. */
    method NoteAmidOthers(ghost first: Side, ghost notes: seq<Action>, id: OpId, text: string, now: int)
      returns (ghost more: seq<Action>)
      requires Inv(store.View()) && !store.phase.Creating? && NotesMade(first, store.Side(), notes)
      modifies store
      ensures Inv(store.View()) && store.phase == old(store.phase) && NotesMade(first, store.Side(), more)
      ensures more == notes + [Note(id, "operation.related", text, 0)]
    {
      ghost var a := store.Side();
      store.InterfereDuringCall();
      ghost var b := store.Side();
      StepEvolves(b.db, Note(id, "operation.related", text, now));
      store.TraceEvent(id, "operation.related", text, now);
      ghost var note := Note(id, "operation.related", text, 0);
      more := notes + [note];
      OneMoreNote(first, a, b, store.Side(), notes, note);
    }

    /** Clear the queue of a device: drop its commands and cancel whatever of it is not finished. `last` is
        the state from which the operations are cancelled, in one step: those of the device that are not
        finished by then, which are counted, and no others. */
    method ClearDeviceQueue(d: DeviceId, now: int) returns (count: nat, ghost last: Side)
      requires Inv(store.View()) && store.phase == Free
      modifies store
      ensures Inv(store.View()) && store.phase == Free
      ensures Did(old(store.Side()), last, [Protocol.DropDevice(d)]) && OpsEvolved(old(store.ops), last.db.ops)
      ensures Did(last, store.Side(), [CancelDevice(d, 0)]) && Cleared(last.db, store.View(), d, now)
      ensures count == |UnfinishedOf(last.db.ops, d)|
    {
      DropAndWait(d);
      last := store.Side();
      ClearedAs(last.db, d, now);
      var ids := store.CancelNonTerminal(d, now);
      assert ids == UnfinishedOf(last.db.ops, d);
      return |ids|, last;
    }

    /** The commands go first; the others go on before the operations are cancelled. */
    method DropAndWait(d: DeviceId)
      requires Inv(store.View()) && store.phase == Free
      modifies store
      ensures Inv(store.View()) && store.phase == Clearing(d) && NoCommandFor(store.View(), d)
      ensures Did(old(store.Side()), store.Side(), [Protocol.DropDevice(d)]) && OpsEvolved(old(store.ops), store.ops)
    {
      ghost var a := store.Side();
      store.DropDevice(d);
      ghost var b := store.Side();
      store.InterfereDuringCall();
      DidChain(a, b, store.Side(), [Protocol.DropDevice(d)], []);
      StillNoCommand(b.db, store.View(), d);
    }
  }

  /** The cancelling step ends the unfinished operations of the device and touches nothing else. */
  lemma ClearedAs(db: Db, d: DeviceId, now: int)
    requires NoCommandFor(db, d)
    ensures Cleared(db, Next(db, CancelDevice(d, now)), d, now)
  {
  }

  /** In `after` exactly the operations of the device that were unfinished in `db` have been cancelled, and
      the device has neither a command nor an unfinished operation. */
  ghost predicate Cleared(db: Db, after: Db, d: DeviceId, now: int) {
    && after.queue == db.queue && NoCommandFor(after, d) && after.ops.Keys == db.ops.Keys
    && (forall id :: id in db.ops ==>
          after.ops[id] == if id in UnfinishedOf(db.ops, d)
                           then Cancel(db.ops[id], Plain("cancelled by device queue clear"), now) else db.ops[id])
    && forall id :: id in after.ops && after.ops[id].device == Some(d) ==> Terminal(after.ops[id].status)
  }

  function UnfinishedOf(ops: map<OpId, Operation>, d: DeviceId): set<OpId> {
    set id | id in ops && ops[id].device == Some(d) && !Terminal(ops[id].status)
  }

  /** Since `a` only notes were made, with the others going on in between. */
  ghost predicate NotesMade(a: Side, b: Side, notes: seq<Action>) {
    OpsEvolved(a.db.ops, b.db.ops) && RowsFrom(a.db, b.db) && Did(a, b, notes)
  }

  /** The start that a stop has cancelled, if there was one. */
  ghost predicate CancelledStart(db: Db, d: DeviceId, started: Option<OpId>) {
    started.Some? ==>
      var id := started.value;
      id in db.ops && IsStart(db.ops[id].kind) && db.ops[id].device == Some(d) && db.ops[id].status == Cancelled
  }

  function AsSet(id: Option<OpId>): set<OpId> { if id.Some? then {id.value} else {} }

  lemma StartIsCancelled(db: Db, after: Db, d: DeviceId, started: Option<OpId>)
    requires started.Some? ==> started.value in db.ops && started.value in after.ops
    requires started.Some? ==> Unfinished(db.ops[started.value], d) && after.ops[started.value].status == Cancelled
    requires started.Some? ==> Evolved(db.ops[started.value], after.ops[started.value])
    ensures CancelledStart(after, d, started)
  {
  }

  lemma CancelledStays(db: Db, after: Db, d: DeviceId, started: Option<OpId>)
    requires CancelledStart(db, d, started) && OpsEvolved(db.ops, after.ops)
    ensures CancelledStart(after, d, started)
  {
    assert started.Some? ==> Evolved(db.ops[started.value], after.ops[started.value]);
  }

  /** A device has at most one active start. */
  lemma TheStart(db: Db, d: DeviceId, ids: set<OpId>) returns (started: Option<OpId>)
    requires Inv(db) && forall id :: id in ids <==> id in db.ops && Unfinished(db.ops[id], d)
    ensures ids == AsSet(started)
  {
    if ids == {} {
      return None;
    }
    var id :| id in ids;
    assert ActiveStart(db.ops[id], d) && forall other :: other in ids ==> ActiveStart(db.ops[other], d);
    assert ids == {id};
    return Some(id);
  }

  lemma OneMoreNote(first: Side, a: Side, b: Side, c: Side, notes: seq<Action>, note: Action)
    requires NotesMade(first, a, notes) && OpsEvolved(a.db.ops, b.db.ops) && RowsFrom(a.db, b.db) && Did(a, b, [])
    requires OpsEvolved(b.db.ops, c.db.ops) && c.db.queue == b.db.queue && Did(b, c, [note])
    ensures NotesMade(first, c, notes + [note])
  {
    DidChain(first, a, b, notes, []);
    DidChain(first, b, c, notes, [note]);
    EvolvedChain(first.db.ops, a.db.ops, b.db.ops);
    EvolvedChain(first.db.ops, b.db.ops, c.db.ops);
    RowsChain(first.db, a.db, b.db);
  }

  ghost predicate NoQueuedStart(db: Db, d: DeviceId) {
    forall q :: q in db.queue ==> !(db.queue[q].target == Registered(d) && db.queue[q].path == StartPath)
  }

  ghost predicate NoCommandFor(db: Db, d: DeviceId) {
    forall q :: q in db.queue ==> db.queue[q].target != Registered(d)
  }

  /** While a service call is under way nobody else queues anything. */
  lemma StillNoCommand(before: Db, after: Db, d: DeviceId)
    requires ServiceRely(before, after) && NoCommandFor(before, d)
    ensures NoCommandFor(after, d)
  {
    forall q | q in after.queue ensures after.queue[q].target != Registered(d) {
      var p :| p in before.queue && SameCommand(after.queue[q], before.queue[p]);
    }
  }

  /** No service call but a fill creates starts, and nothing revives one. */
  lemma StillNoStart(before: Db, after: Db, added: OpId, d: DeviceId)
    requires NoActiveStart(before, d) && OpsEvolved(before.ops, after.ops)
    requires after.ops.Keys <= before.ops.Keys + {added} && added !in before.ops
    requires added in after.ops ==> !ActiveStart(after.ops[added], d)
    ensures NoActiveStart(after, d)
  {
    forall id | id in after.ops && id in before.ops ensures !ActiveStart(after.ops[id], d) {
      assert Evolved(before.ops[id], after.ops[id]) && !ActiveStart(before.ops[id], d);
    }
  }

  // ----- which requests count as equal -----

  /** Two fills are the same request exactly when they go to the same URL with the same amount, two stops when
      they go to the same URL, two confirmations when the device type agrees too; and no two of different kinds. */
  lemma EqualRequests(i: OpId, j: OpId, d: Device, e: Device, g: real, h: real)
    ensures SameKey(StartCommand(i, d, g), StartCommand(j, e, h)) <==> d.url == e.url && g == h
    ensures SameKey(StopCommand(i, d), StopCommand(j, e)) <==> d.url == e.url
    ensures SameKey(ConfigCommand(i, d), ConfigCommand(j, e)) <==> d.url == e.url && d.isTank == e.isTank
    ensures !SameKey(StartCommand(i, d, g), StopCommand(j, e)) && !SameKey(StartCommand(i, d, g), ConfigCommand(j, e))
    ensures !SameKey(StopCommand(i, d), ConfigCommand(j, e))
  {
    assert "tank"[0] != "plant"[0];
  }

  // ----- what follows for a caller -----

  lemma EvolvedChain(a: map<OpId, Operation>, b: map<OpId, Operation>, c: map<OpId, Operation>)
    requires OpsEvolved(a, b) && OpsEvolved(b, c)
    ensures OpsEvolved(a, c)
  {
    forall id | id in a ensures Evolved(a[id], c[id]) {
      assert Evolved(a[id], b[id]) && Evolved(b[id], c[id]);
    }
  }

  lemma RowsReflexive(db: Db)
    ensures RowsFrom(db, db)
  {
    forall q | q in db.queue ensures exists p :: p in db.queue && SameCommand(db.queue[q], db.queue[p]) {
      assert SameCommand(db.queue[q], db.queue[q]);
    }
  }

  lemma RowsChain(a: Db, b: Db, c: Db)
    requires RowsFrom(a, b) && RowsFrom(b, c)
    ensures RowsFrom(a, c)
  {
    forall q | q in c.queue ensures exists p :: p in a.queue && SameCommand(c.queue[q], a.queue[p]) {
      var r :| r in b.queue && SameCommand(c.queue[q], b.queue[r]);
      var p :| p in a.queue && SameCommand(b.queue[r], a.queue[p]);
    }
  }

  lemma RowsOrNewLater(a: Db, b: Db, c: Db, d: Command)
    requires RowsFrom(a, b) && RowsOrNew(b, c, d)
    ensures RowsOrNew(a, c, d)
  {
    forall q | q in c.queue && !SameCommand(c.queue[q], d)
      ensures exists p :: p in a.queue && SameCommand(c.queue[q], a.queue[p])
    {
      var r :| r in b.queue && SameCommand(c.queue[q], b.queue[r]);
      var p :| p in a.queue && SameCommand(b.queue[r], a.queue[p]);
    }
  }

  /** The last step of a stop. */
  lemma StartsDropped(a: Db, b: Db, d: DeviceId)
    requires RowsFrom(a, b) && PhaseHolds(b) && b.phase == Stopping(d)
    ensures var after := Next(b, DropStarts(d));
      RowsFrom(a, after) && after.ops == b.ops && NoQueuedStart(after, d) && NoActiveStart(after, d)
  {
    var after := Next(b, DropStarts(d));
    forall q | q in after.queue ensures exists p :: p in a.queue && SameCommand(after.queue[q], a.queue[p]) {
      var p :| p in a.queue && SameCommand(b.queue[q], a.queue[p]);
    }
  }

  lemma StartsChain(a: Db, b: Db, c: Db)
    requires (RowsFrom(a, b) || StartsFrom(a, b)) && (RowsFrom(b, c) || StartsFrom(b, c) || exists d :: RowsOrNew(b, c, d) && d.path != StartPath)
    ensures StartsFrom(a, c)
  {
    forall q | q in c.queue && c.queue[q].path == StartPath
      ensures exists p :: p in a.queue && SameCommand(c.queue[q], a.queue[p])
    {
      var r :| r in b.queue && SameCommand(c.queue[q], b.queue[r]);
      var p :| p in a.queue && SameCommand(b.queue[r], a.queue[p]);
    }
  }

  /** Nobody else queues commands during a service call. */
  lemma StillNoDuplicate(before: Db, after: Db, c: Command)
    requires RowsFrom(before, after) && NoDuplicate(before, c)
    ensures NoDuplicate(after, c)
  {
    forall q | q in after.queue ensures !SameKey(after.queue[q], c) {
      var p :| p in before.queue && SameCommand(after.queue[q], before.queue[p]);
    }
  }

  lemma TheDuplicate(db: Db, id: OpId, c: Command)
    requires Inv(db) && QueuedAs(db, id, c)
    ensures id in db.ops && (db.ops[id].status == Cancelled <==> CancelledDuplicate(db, c))
  {
    var q :| q in db.queue && db.queue[q].op == id && SameKey(db.queue[q], c);
    assert forall p :: p in db.queue && SameKey(db.queue[p], c) ==> SameKey(db.queue[p], db.queue[q]) && p == q;
  }

  lemma FillAnswered(before: Db, looked: Db, after: Db, id: OpId, d: Device, c: Command)
    requires Inv(looked) && NoActiveStart(looked, d.id) && OpsEvolved(before.ops, looked.ops)
    requires StartsFrom(before, looked) && c.path == StartPath
    requires id in after.ops && (id == c.op <==> NoDuplicate(looked, c)) && QueuedAs(after, id, c)
    requires after.ops[id].status == Cancelled <==> CancelledDuplicate(looked, c)
    requires id == c.op ==> ActiveStart(after.ops[id], d.id)
    requires id != c.op ==> after == looked
    ensures FillLooked(before, looked, after, id, d, c)
  {
    if id != c.op {
      var q :| q in looked.queue && looked.queue[q].op == id && SameKey(looked.queue[q], c);
      var p :| p in before.queue && SameCommand(looked.queue[q], before.queue[p]);
      assert before.queue[p].op == id && SameKey(before.queue[p], c);
      assert Matches(looked.queue[q], looked.ops[id]) && !ActiveStart(looked.ops[id], d.id);
    }
    if NoDuplicate(before, c) && !NoDuplicate(looked, c) {
      assert false;
    }
  }

  /** The operation named is a stop, queued with the URL, path, method and payload of `c`. */
  ghost predicate StopNamed(db: Db, id: OpId, c: Command) {
    QueuedAs(db, id, c) && id in db.ops && db.ops[id].kind == WateringStop
  }

  /** The operation has a queued stop: a POST to the stop path of the device's URL, without fields. */
  ghost predicate StopQueuedFor(db: Db, id: OpId, d: Device) {
    exists q :: q in db.queue && db.queue[q].op == id && db.queue[q].url == d.url && db.queue[q].path == StopPath
                && db.queue[q].verb == Post && db.queue[q].payload == Some(NoFields)
  }

  /** The operation has a queued start: a POST to the start path of the device's URL, with the amount. */
  ghost predicate StartQueuedFor(db: Db, id: OpId, d: Device, grams: real) {
    exists q :: q in db.queue && db.queue[q].op == id && db.queue[q].url == d.url && db.queue[q].path == StartPath
                && db.queue[q].verb == Post && db.queue[q].payload == Some(TargetGrams(grams))
  }

  lemma CommandsQueued(db: Db, id: OpId, op: OpId, d: Device, grams: real)
    ensures QueuedAs(db, id, StopCommand(op, d)) ==> StopQueuedFor(db, id, d)
    ensures QueuedAs(db, id, StartCommand(op, d, grams)) ==> StartQueuedFor(db, id, d, grams)
  {
  }

  lemma StopIsNamed(db: Db, id: OpId, c: Command)
    requires Inv(db) && QueuedAs(db, id, c) && c.path == StopPath
    ensures StopNamed(db, id, c)
  {
    var q :| q in db.queue && db.queue[q].op == id && SameKey(db.queue[q], c);
    assert Matches(db.queue[q], db.ops[id]);
  }

  /** A stop that is not dealt with is still queued, as the same request. */
  lemma StopStillQueued(queued: Db, after: Db, id: OpId, c: Command)
    requires Inv(queued) && Inv(after) && after.phase == Free && StopNamed(queued, id, c)
    requires RowsFrom(queued, after) && OpsEvolved(queued.ops, after.ops)
    ensures Settled(after.ops[id]) || QueuedAs(after, id, c)
  {
    assert Evolved(queued.ops[id], after.ops[id]);
    if !Settled(after.ops[id]) {
      assert Waiting(after.ops[id]) && HasCommand(after, id);
      var q :| q in after.queue && after.queue[q].op == id;
      var p :| p in queued.queue && SameCommand(after.queue[q], queued.queue[p]);
      var p' :| p' in queued.queue && queued.queue[p'].op == id && SameKey(queued.queue[p'], c);
      assert p == p';
    }
  }

  // ----- cancelled from the device card -----

  /** An operation is created, its command queued, and then it is cancelled from the device card. */
  function CardCancelRun(c: Command, optype: OperationType, device: Option<DeviceId>, now: int): seq<Action> {
    [Create(1, optype, device, now),
     Enqueue(c, now),
     Report(1, Cancelled, Plain("cancelled from device card"), OperationCancelled, now)]
  }

  /** The states of that run. */
  function CardCancelled(c: Command, optype: OperationType, device: Option<DeviceId>, now: int): (Db, Db) {
    var op := NewOperation(optype, device, now);
    (Db(map[1 := op], map[], 0, Creating(1)),
     Db(map[1 := Trace(op, "command.queued", Plain(""), now)], map[1 := c], 1, Free))
  }

  lemma CardCancelStates(c: Command, optype: OperationType, device: Option<DeviceId>, now: int)
    requires c.op == 1 && c.startedAt == None && Matches(c, NewOperation(optype, device, now))
    requires !optype.CallbackProbe? && (IsStart(optype) ==> device.Some?)
    ensures var (db1, db2) := CardCancelled(c, optype, device, now); var actions := CardCancelRun(c, optype, device, now);
      && db1 == Next(EMPTY, actions[0]) && db2 == Next(db1, actions[1])
      && Enabled(EMPTY, actions[0]) && Enabled(db1, actions[1]) && Enabled(db2, actions[2])
  {
  }

  lemma CardCancelEnd(c: Command, optype: OperationType, device: Option<DeviceId>, now: int)
    ensures var db := Next(CardCancelled(c, optype, device, now).1, CardCancelRun(c, optype, device, now)[2]);
      && db.phase == Free && db.ops.Keys == {1} && db.ops[1].status == Cancelled && db.queue == map[1 := c]
  {
  }

  /** Whatever is cancelled from the device card leaves its command in the queue until a worker comes by. */
  lemma CancelledRowStays(c: Command, optype: OperationType, device: Option<DeviceId>, now: int)
    requires c.op == 1 && c.startedAt == None && Matches(c, NewOperation(optype, device, now))
    requires !optype.CallbackProbe? && (IsStart(optype) ==> device.Some?)
    ensures Possible(EMPTY, CardCancelRun(c, optype, device, now))
    ensures var db := Run(EMPTY, CardCancelRun(c, optype, device, now));
      && db.phase == Free && db.ops.Keys == {1} && db.ops[1].status == Cancelled && db.queue == map[1 := c]
  {
    var actions := CardCancelRun(c, optype, device, now);
    CardCancelStates(c, optype, device, now);
    CardCancelEnd(c, optype, device, now);
    RunOfThree(EMPTY, actions[0], actions[1], actions[2]);
  }

  /** So a fill with the same grams finds the command of the cancelled start: `QueueFill` answers with the
      cancelled operation. */
  lemma CancelledStartBlocksRefill(d: Device, grams: real, now: int)
    ensures var actions := CardCancelRun(StartCommand(1, d, grams), WateringStart, Some(d.id), now);
      var db := Run(EMPTY, actions);
      && Possible(EMPTY, actions) && db.phase == Free && NoActiveStart(db, d.id)
      && CancelledDuplicate(db, StartCommand(2, d, grams))
  {
    CancelledRowStays(StartCommand(1, d, grams), WateringStart, Some(d.id), now);
    var db := Run(EMPTY, CardCancelRun(StartCommand(1, d, grams), WateringStart, Some(d.id), now));
    assert SameKey(db.queue[1], StartCommand(2, d, grams));
  }

  /** Unless a worker takes that command away before the fill looks for it: why `QueueFill` tells its answer
      from the state at the lookup, and not from the state before the call. */
  lemma CancelledStartMayGo(d: Device, grams: real, now: int)
    ensures var db := Run(EMPTY, CardCancelRun(StartCommand(1, d, grams), WateringStart, Some(d.id), now));
      var pop := Protocol.Pop(1, now); var c := StartCommand(2, d, grams);
      && CancelledDuplicate(db, c) && Enabled(db, pop) && EnvironmentStep(db, pop) && NoDuplicate(Next(db, pop), c)
  {
    CancelledStartBlocksRefill(d, grams, now);
    CancelledRowStays(StartCommand(1, d, grams), WateringStart, Some(d.id), now);
  }

  /** And a stop finds the command of the cancelled stop: `QueueStop` names an operation that no worker will
      send, and still marks the device's starts as cancelled. */
  lemma CancelledStopSwallowsStop(d: Device, now: int)
    ensures var actions := CardCancelRun(StopCommand(1, d), WateringStop, Some(d.id), now);
      var db := Run(EMPTY, actions);
      && Possible(EMPTY, actions) && db.phase == Free && CancelledDuplicate(db, StopCommand(2, d))
  {
    CancelledRowStays(StopCommand(1, d), WateringStop, Some(d.id), now);
    var db := Run(EMPTY, CardCancelRun(StopCommand(1, d), WateringStop, Some(d.id), now));
    assert SameKey(db.queue[1], StopCommand(2, d));
  }

  lemma CreatedAs(db: Db, id: OpId, optype: OperationType, device: Option<DeviceId>, now: int)
    requires id !in db.ops && !optype.CallbackProbe?
    ensures var after := Next(db, Create(id, optype, device, now));
      && OpsEvolved(db.ops, after.ops) && RowsFrom(db, after) && after.ops.Keys == db.ops.Keys + {id}
      && after.ops[id] == NewOperation(optype, device, now) && after.phase == Creating(id)
  {
    var after := Next(db, Create(id, optype, device, now));
    assert after.ops == db.ops[id := NewOperation(optype, device, now)] && after.queue == db.queue;
    forall other | other in db.ops ensures Evolved(db.ops[other], after.ops[other]) {
      assert after.ops[other] == db.ops[other];
    }
    RowsReflexive(db);
  }

  lemma EnqueueQueues(db: Db, c: Command, now: int)
    requires Inv(db) && Enabled(db, Enqueue(c, now))
    ensures var after := Next(db, Enqueue(c, now));
      && after.ops.Keys == db.ops.Keys && OpsEvolved(db.ops, after.ops)
      && after.ops[c.op].status == db.ops[c.op].status && QueuedAs(after, c.op, c) && RowsOrNew(db, after, c)
  {
    StepEvolves(db, Enqueue(c, now));
    var after := Next(db, Enqueue(c, now));
    assert after.queue[db.lastId + 1] == c;
    forall q | q in after.queue
      ensures SameCommand(after.queue[q], c) || exists p :: p in db.queue && SameCommand(after.queue[q], db.queue[p])
    {
      if q in db.queue && q != db.lastId + 1 { assert SameCommand(after.queue[q], db.queue[q]); }
    }
  }

  lemma AbandonCancels(db: Db, id: OpId, now: int)
    requires Inv(db) && Enabled(db, Abandon(id, now)) && db.ops[id].status == Queued
    ensures var after := Next(db, Abandon(id, now));
      && after.ops.Keys == db.ops.Keys && OpsEvolved(db.ops, after.ops)
      && after.ops[id].status == Cancelled && after.queue == db.queue
  {
    StepEvolves(db, Abandon(id, now));
  }

  lemma RunOfThree(db: Db, a: Action, b: Action, c: Action)
    ensures Run(db, [a, b, c]) == Next(Next(Next(db, a), b), c)
    ensures Possible(db, [a, b, c]) <==>
      Enabled(db, a) && Enabled(Next(db, a), b) && Enabled(Next(Next(db, a), b), c)
  {
    assert [a, b, c][..2] == [a, b] && [a, b][..1] == [a] && [a][..0] == [];
    assert Run(db, [a]) == Next(db, a);
    assert Run(db, [a, b]) == Next(Next(db, a), b);
    assert Possible(db, [a]) <==> Enabled(db, a);
    assert Possible(db, [a, b]) <==> Possible(db, [a]) && Enabled(Next(db, a), b);
  }
}
