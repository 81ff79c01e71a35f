/** The repositories as mutable objects: one method per committed repository call. `View` is the
    value that the protocol talks about; every method is tied to the step it takes there. */
module Database {
  import opened Options
  import opened OperationLog
  import opened Protocol
  import opened ProtocolSafety
  import opened ProtocolCalls

  class Store {
    var ops: map<OpId, Operation>
    var queue: map<nat, Command>
    var lastId: nat
    /** Which service call is under way; the program holds no such field. */
    ghost var phase: ServicePhase
    /** The calls made so far by whoever holds this object; steps of the others are not among them. */
    ghost var calls: seq<Action>

    ghost function View(): Db
      reads this
    {
      Db(ops, queue, lastId, phase)
    }

    ghost function Side(): Side
      reads this
    {
      ProtocolCalls.Side(calls, View())
    }

    constructor ()
      ensures View() == EMPTY && calls == []
    {
      ops, queue, lastId, phase, calls := map[], map[], 0, Free, [];
    }

    /** Other participants run: any finite run of enabled steps may happen here. */
    method Interfere()
      requires Inv(View())
      modifies this
      ensures exists actions :: Possible(old(View()), actions) && View() == Run(old(View()), actions)
      ensures Inv(View()) && Rely(old(View()), View()) && Did(old(Side()), Side(), [])
    {
      assert Possible(View(), []) && View() == Run(View(), []);
      DidNothing(Side());
    }

    /** The same, while nobody enqueues for `key`: rows of that key may vanish, nothing else. */
    method InterfereQuietly(key: Option<Target>)
      requires Inv(View())
      modifies this
      ensures Inv(View()) && Rely(old(View()), View()) && Did(old(Side()), Side(), [])
      ensures forall q :: q in Subqueue(View(), key) ==>
        q in Subqueue(old(View()), key) && queue[q] == old(queue)[q]
    {
      DidNothing(Side());
    }

    /** During a service call the others go on, but no other service call runs. */
    method InterfereDuringCall()
      requires Inv(View()) && (phase.Creating? ==> ops[phase.op].status == Queued)
      modifies this
      ensures exists actions :: Possible(old(View()), actions) && EnvironmentRun(old(View()), actions)
                                && View() == Run(old(View()), actions)
      ensures Inv(View()) && ServiceRely(old(View()), View()) && Did(old(Side()), Side(), [])
    {
      assert Possible(View(), []) && EnvironmentRun(View(), []) && View() == Run(View(), []);
      EnvironmentRunRely(View(), []);
      DidNothing(Side());
    }

    // ----- operation log -----

    method Create(id: OpId, optype: OperationType, device: Option<DeviceId>, now: int)
      requires Inv(View()) && Enabled(View(), Protocol.Create(id, optype, device, now))
      modifies this
      ensures View() == Next(old(View()), Protocol.Create(id, optype, device, now)) && Inv(View())
      ensures Did(old(Side()), Side(), [Untimed(Protocol.Create(id, optype, device, now))])
    {
      StepKeepsInv(View(), Protocol.Create(id, optype, device, now));
      DidStep(Side(), Protocol.Create(id, optype, device, now));
      calls := calls + [Untimed(Protocol.Create(id, optype, device, now))];
      ops := ops[id := NewOperation(optype, device, now)];
      phase := if optype.CallbackProbe? then phase else Creating(id);
    }

    method Event(id: OpId, status: Status, detail: Detail, kind: EventType, now: int)
      requires Inv(View()) && IsStatusEvent(kind)
      modifies this`ops, this`calls
      ensures View() == Next(old(View()), Report(id, status, detail, kind, now)) && Inv(View())
      ensures Did(old(Side()), Side(), [Untimed(Report(id, status, detail, kind, now))])
    {
      StepKeepsInv(View(), Report(id, status, detail, kind, now));
      DidStep(Side(), Report(id, status, detail, kind, now));
      calls := calls + [Untimed(Report(id, status, detail, kind, now))];
      if id !in ops {
        return;
      }
      var row := ops[id];
      var st, text := status, detail;
      if row.kind == WateringStop && status == Error && detail.NotActive? {
        st, text := Success, Plain("no active watering");
      }
      if Terminal(row.status) {
        var misclassifiedAck := false;
        if row.status == Error {
          var latestError := LatestError(row.events);
          misclassifiedAck := latestError.Some? && latestError.value.detail.Ack?;
        }
        if !misclassifiedAck {
          ops := ops[id := Ignore(row, now)];
          return;
        }
      }
      if Rank(st) < Rank(row.status) {
        ops := ops[id := Ignore(row, now)];
        return;
      }
      ops := ops[id := row.(status := st, updatedAt := now, events := row.events + [OperationLog.Event(st, text, kind, now)])];
    }

    method TraceEvent(id: OpId, name: string, text: string, now: int)
      requires Inv(View())
      modifies this`ops, this`calls
      ensures View() == Next(old(View()), Protocol.Note(id, name, text, now)) && Inv(View())
      ensures Did(old(Side()), Side(), [Untimed(Protocol.Note(id, name, text, now))])
    {
      StepKeepsInv(View(), Protocol.Note(id, name, text, now));
      DidStep(Side(), Protocol.Note(id, name, text, now));
      calls := calls + [Untimed(Protocol.Note(id, name, text, now))];
      if id in ops {
        ops := ops[id := Trace(ops[id], name, Plain(text), now)];
      }
    }

    method IsCancelled(id: OpId) returns (r: bool)
      ensures r <==> id in ops && ops[id].status == Cancelled
    {
      r := id in ops && ops[id].status == Cancelled;
    }

    /** All rows found by the query, cancelled one after the other. */
    method CancelRows(rows: set<OpId>, detail: Detail, now: int)
      requires rows <= ops.Keys
      modifies this`ops
      ensures ops == map id | id in old(ops) :: if id in rows then Cancel(old(ops)[id], detail, now) else old(ops)[id]
    {
      var todo := rows;
      while todo != {}
        invariant todo <= rows
        invariant ops == map id | id in old(ops) :: if id in rows - todo then Cancel(old(ops)[id], detail, now) else old(ops)[id]
      {
        var id :| id in todo;
        ops := ops[id := Cancel(ops[id], detail, now)];
        todo := todo - {id};
      }
    }

    method CancelActiveWateringStarts(d: DeviceId, now: int) returns (ids: set<OpId>)
      requires Inv(View()) && phase == Free
      modifies this
      ensures View() == Next(old(View()), CancelStarts(d, now)) && Inv(View())
      ensures Did(old(Side()), Side(), [Untimed(CancelStarts(d, now))])
      ensures forall id :: id in ids <==> id in old(ops) && Unfinished(old(ops)[id], d)
      ensures ops.Keys == old(ops).Keys && forall id :: id in ops ==>
        if id in ids then ops[id].status == Cancelled else ops[id] == old(ops)[id]
    {
      StepKeepsInv(View(), CancelStarts(d, now));
      DidStep(Side(), CancelStarts(d, now));
      calls := calls + [Untimed(CancelStarts(d, now))];
      ids := set id | id in ops && ActiveStart(ops[id], d);
      CancelRows(ids, Plain("cancelled by watering stop"), now);
      phase := Stopping(d);
    }

    method CancelNonTerminal(d: DeviceId, now: int) returns (ids: set<OpId>)
      requires Inv(View()) && phase == Clearing(d)
      modifies this
      ensures View() == Next(old(View()), CancelDevice(d, now)) && Inv(View())
      ensures Did(old(Side()), Side(), [Untimed(CancelDevice(d, now))])
      ensures forall id :: id in ids <==> id in old(ops) && old(ops)[id].device == Some(d) && !Terminal(old(ops)[id].status)
      ensures ops.Keys == old(ops).Keys && forall id :: id in ops ==>
        if id in ids then ops[id].status == Cancelled else ops[id] == old(ops)[id]
    {
      StepKeepsInv(View(), CancelDevice(d, now));
      DidStep(Side(), CancelDevice(d, now));
      calls := calls + [Untimed(CancelDevice(d, now))];
      ids := set id | id in ops && ops[id].device == Some(d) && !Terminal(ops[id].status);
      CancelRows(ids, Plain("cancelled by device queue clear"), now);
      phase := Free;
    }

    // ----- command queue -----

    /** One report of silence, after whatever the others did since the rows were read. */
    method ReportSilence(id: OpId, now: int)
      requires Inv(View()) && id in ops
      modifies this
      ensures Inv(View()) && Rely(old(View()), View()) && id in ops && Terminal(ops[id].status)
      ensures Reported(old(ops)[id], ops[id], Timeout, Plain("no controller result"), StatusChanged)
      ensures Did(old(Side()), Side(), [Silence(id)])
    {
      ghost var start := Side();
      Interfere();
      ghost var mid := Side();
      ReportRely(start.db, View(), id, now);
      Event(id, Timeout, Plain("no controller result"), StatusChanged, now);
      DidChain(start, mid, Side(), [], [Silence(id)]);
    }

    /** The next report; `todo` are the operations of `ids` that have none yet. */
    method SilenceNext(id: OpId, now: int, ghost first: Side, ghost ids: set<OpId>, ghost todo: set<OpId>, ghost own: seq<Action>)
      returns (ghost longer: seq<Action>)
      requires Inv(View()) && Silenced(first, Side(), own, ids - todo) && id in todo && todo <= ids && ids <= first.db.ops.Keys
      modifies this
      ensures Inv(View()) && Silenced(first, Side(), longer, ids - (todo - {id}))
    {
      ghost var start := Side();
      assert id in ops;
      ReportSilence(id, now);
      longer := own + [Silence(id)];
      SilencedOneMore(first, start, Side(), own, ids - todo, id);
      assert ids - todo + {id} == ids - (todo - {id});
    }

    /** Ends the operations whose controller has kept silent; the others go on between the reports. */
    method TimeoutStaleControllerResults(maxWait: int, now: int) returns (count: nat, ghost own: seq<Action>)
      requires Inv(View())
      modifies this
      ensures Inv(View()) && Rely(old(View()), View())
      ensures AllEnded(old(View()), View(), StaleIds(old(ops), maxWait, now)) && count == |StaleIds(old(ops), maxWait, now)|
      ensures Did(old(Side()), Side(), own) && Silences(own, StaleIds(old(ops), maxWait, now))
      ensures forall id :: Silence(id) in own <==>
        && id in old(ops) && (old(ops)[id].status == Accepted || old(ops)[id].status == Running)
        && old(ops)[id].kind != StatisticsCollection && old(ops)[id].updatedAt + maxWait <= now
    {
      ghost var first := Side();
      var ids := StaleIds(ops, maxWait, now);
      var todo := ids;
      own := [];
      SilencedNone(first, ids);
      while todo != {}
        invariant todo <= ids && ids <= first.db.ops.Keys && Inv(View()) && Silenced(first, Side(), own, ids - todo)
      {
        var id :| id in todo;
        own := SilenceNext(id, now, first, ids, todo, own);
        todo := todo - {id};
      }
      assert ids - todo == ids;
      SilencedEach(own, ids);
      return |ids|, own;
    }

    method FindDuplicate(c: Command) returns (r: Option<OpId>)
      ensures r.None? ==> NoDuplicate(View(), c)
      ensures r.Some? ==> exists q :: q in queue && SameKey(queue[q], c) && queue[q].op == r.value
    {
      if q :| q in queue && SameKey(queue[q], c) {
        return Some(queue[q].op);
      }
      return None;
    }

    /** Insert unless an equal command is there already; the id returned is that of the command now queued. */
    method EnqueueCommand(c: Command, now: int) returns (r: OpId)
      requires Inv(View()) && phase == Creating(c.op) && c.op in ops && Matches(c, ops[c.op]) && c.startedAt == None
      modifies this
      ensures Inv(View())
      ensures r == c.op ==> NoDuplicate(old(View()), c) && View() == Next(old(View()), Enqueue(c, now))
      ensures r == c.op ==> Did(old(Side()), Side(), [Untimed(Enqueue(c, now))])
      ensures r != c.op ==> Side() == old(Side()) && exists q :: q in queue && SameKey(queue[q], c) && queue[q].op == r
    {
      var duplicate := FindDuplicate(c);
      if duplicate.Some? {
        assert duplicate.value != c.op by { assert !HasCommand(View(), c.op); }
        return duplicate.value;
      }
      Insert(c, now);
      return c.op;
    }

    method Insert(c: Command, now: int)
      requires Inv(View()) && Enabled(View(), Enqueue(c, now))
      modifies this
      ensures View() == Next(old(View()), Enqueue(c, now)) && Inv(View())
      ensures Did(old(Side()), Side(), [Untimed(Enqueue(c, now))])
    {
      StepKeepsInv(View(), Enqueue(c, now));
      DidStep(Side(), Enqueue(c, now));
      calls := calls + [Untimed(Enqueue(c, now))];
      lastId := lastId + 1;
      queue := queue[lastId := c];
      ops := ops[c.op := Trace(ops[c.op], "command.queued", Plain(""), now)];
      phase := Free;
    }

    /** The operation that found an equal command queued is cancelled. */
    method AbandonOperation(id: OpId, now: int)
      requires Inv(View()) && phase == Creating(id)
      modifies this
      ensures View() == Next(old(View()), Abandon(id, now)) && Inv(View())
      ensures Did(old(Side()), Side(), [Untimed(Abandon(id, now))])
    {
      StepKeepsInv(View(), Abandon(id, now));
      DidStep(Side(), Abandon(id, now));
      Event(id, Cancelled, Plain("duplicate command already queued"), StatusChanged, now);
      phase := Free;
      calls := old(calls) + [Untimed(Abandon(id, now))];
    }

    /** The oldest command of a key. */
    method Peek(key: Option<Target>) returns (r: Option<nat>)
      ensures r.None? <==> Subqueue(View(), key) == map[]
      ensures r.Some? ==> r.value in Subqueue(View(), key) && forall p :: p in Subqueue(View(), key) ==> r.value <= p
    {
      var rows := set q | q in queue && (key == None || queue[q].target == key.value);
      ghost var sub := Subqueue(View(), key);
      assert rows == sub.Keys;
      if rows == {} {
        return None;
      }
      var first :| first in rows;
      var todo := rows - {first};
      while todo != {}
        invariant first in rows && todo <= rows && forall p :: p in rows - todo ==> first <= p
      {
        var q :| q in todo;
        assert rows - (todo - {q}) == rows - todo + {q};
        if q < first { first := q; }
        todo := todo - {q};
      }
      assert rows - todo == rows;
      return Some(first);
    }

    method MarkStarted(q: nat, now: int)
      requires Inv(View())
      modifies this`queue, this`calls
      ensures View() == Next(old(View()), Protocol.MarkStarted(q, now)) && Inv(View())
      ensures Did(old(Side()), Side(), [Untimed(Protocol.MarkStarted(q, now))])
    {
      StepKeepsInv(View(), Protocol.MarkStarted(q, now));
      DidStep(Side(), Protocol.MarkStarted(q, now));
      calls := calls + [Untimed(Protocol.MarkStarted(q, now))];
      if q in queue && queue[q].startedAt.None? {
        queue := queue[q := queue[q].(startedAt := Some(now))];
      }
    }

    method Pop(q: nat, now: int)
      requires Inv(View()) && Enabled(View(), Protocol.Pop(q, now))
      modifies this`queue, this`ops, this`calls
      ensures View() == Next(old(View()), Protocol.Pop(q, now)) && Inv(View())
      ensures Did(old(Side()), Side(), [Untimed(Protocol.Pop(q, now))])
    {
      StepKeepsInv(View(), Protocol.Pop(q, now));
      DidStep(Side(), Protocol.Pop(q, now));
      calls := calls + [Untimed(Protocol.Pop(q, now))];
      if q in queue {
        var id := queue[q].op;
        queue := queue - {q};
        if id in ops {
          ops := ops[id := Trace(ops[id], "command.removed", Plain(""), now)];
        }
      }
    }

    method HasOther(q: nat, key: Option<Target>) returns (r: bool)
      ensures r <==> exists p :: p in Subqueue(View(), key) && p != q
    {
      var others := set p | p in queue && p != q && (key == None || queue[p].target == key.value);
      assert forall p :: p in others <==> p in Subqueue(View(), key) && p != q;
      if others != {} {
        assert exists p :: p in others;
      }
      return others != {};
    }

    method MoveToTail(q: nat, c: Command, startedAt: int, now: int)
      requires Inv(View()) && Enabled(View(), Requeue(q, c, startedAt, now)) && q in queue
      modifies this`queue, this`ops, this`lastId, this`calls
      ensures View() == Next(old(View()), Requeue(q, c, startedAt, now)) && Inv(View())
      ensures Did(old(Side()), Side(), [Untimed(Requeue(q, c, startedAt, now))])
    {
      StepKeepsInv(View(), Requeue(q, c, startedAt, now));
      DidStep(Side(), Requeue(q, c, startedAt, now));
      calls := calls + [Untimed(Requeue(q, c, startedAt, now))];
      queue := queue - {q};
      lastId := lastId + 1;
      queue := queue[lastId := Requeued(c, startedAt)];
      if c.op in ops {
        ops := ops[c.op := Trace(ops[c.op], "command.requeued", Plain(""), now)];
      }
    }

    /** Only when another command of the key is waiting does the retry go behind it. */
    method MoveToTailIfOther(q: nat, c: Command, startedAt: int, key: Option<Target>, now: int) returns (r: Option<nat>)
      requires Inv(View()) && Enabled(View(), Requeue(q, c, startedAt, now))
      modifies this`queue, this`ops, this`lastId, this`calls
      ensures Inv(View())
      ensures r.Some? <==> q in old(queue) && exists p :: p in Subqueue(old(View()), key) && p != q
      ensures r.None? ==> Side() == old(Side())
      ensures r.Some? ==> View() == Next(old(View()), Requeue(q, c, startedAt, now)) && r.value == old(lastId) + 1
      ensures r.Some? ==> Did(old(Side()), Side(), [Untimed(Requeue(q, c, startedAt, now))])
    {
      var other := HasOther(q, key);
      if !other || q !in queue {
        return None;
      }
      MoveToTail(q, c, startedAt, now);
      return Some(lastId);
    }

    method DropPendingWateringStart(d: DeviceId)
      requires Inv(View()) && phase == Stopping(d)
      modifies this
      ensures View() == Next(old(View()), DropStarts(d)) && Inv(View())
      ensures Did(old(Side()), Side(), [Untimed(DropStarts(d))])
    {
      StepKeepsInv(View(), DropStarts(d));
      DidStep(Side(), DropStarts(d));
      calls := calls + [Untimed(DropStarts(d))];
      queue := map q | q in queue && !(queue[q].target == Registered(d) && queue[q].path == StartPath) :: queue[q];
      phase := Free;
    }

    method DropDevice(d: DeviceId)
      requires Inv(View()) && phase == Free
      modifies this
      ensures View() == Next(old(View()), Protocol.DropDevice(d)) && Inv(View())
      ensures Did(old(Side()), Side(), [Untimed(Protocol.DropDevice(d))])
    {
      StepKeepsInv(View(), Protocol.DropDevice(d));
      DidStep(Side(), Protocol.DropDevice(d));
      calls := calls + [Untimed(Protocol.DropDevice(d))];
      queue := map q | q in queue && queue[q].target != Registered(d) :: queue[q];
      phase := Clearing(d);
    }
  }

  /** The operations that have waited too long for their controller. */
  function StaleIds(ops: map<OpId, Operation>, maxWait: int, at: int): set<OpId> {
    set id | id in ops && Stale(ops[id], maxWait, at)
  }

  /** The report of a timeout. */
  function Silence(id: OpId): Action { Report(id, Timeout, Plain("no controller result"), StatusChanged, 0) }

  /** One report to each of them, and none to anybody else. */
  ghost predicate Silences(own: seq<Action>, ids: set<OpId>) {
    && (forall k :: 0 <= k < |own| ==> own[k].Report? && own[k].id in ids && own[k] == Silence(own[k].id))
    && (forall j, k :: 0 <= j < k < |own| ==> own[j] != own[k])
    && |own| == |ids|
  }

  /** A timeout was reported to all of them, and they have ended. */
  ghost predicate AllEnded(before: Db, db: Db, ids: set<OpId>) {
    forall id :: id in ids ==> (
      && id in before.ops && id in db.ops && Terminal(db.ops[id].status)
      && Reported(before.ops[id], db.ops[id], Timeout, Plain("no controller result"), StatusChanged))
  }

  /** What holds once a timeout was reported to the operations `done`. */
  ghost predicate Silenced(first: Side, side: Side, own: seq<Action>, done: set<OpId>) {
    Rely(first.db, side.db) && AllEnded(first.db, side.db, done) && Did(first, side, own) && Silences(own, done)
  }

  lemma SilencedNone(side: Side, ids: set<OpId>)
    ensures Silenced(side, side, [], ids - ids)
  {
    assert ids - ids == {};
    DidNothing(side);
  }

  lemma SilencedOneMore(first: Side, start: Side, side: Side, own: seq<Action>, done: set<OpId>, id: OpId)
    requires Silenced(first, start, own, done) && id !in done && id in first.db.ops
    requires id in start.db.ops && id in side.db.ops && Terminal(side.db.ops[id].status)
    requires Rely(start.db, side.db) && Did(start, side, [Silence(id)])
    requires Reported(start.db.ops[id], side.db.ops[id], Timeout, Plain("no controller result"), StatusChanged)
    ensures Silenced(first, side, own + [Silence(id)], done + {id})
  {
    DidChain(first, start, side, own, [Silence(id)]);
    RelyTransitive(first.db, start.db, side.db);
    StillEnded(first.db, start.db, side.db, done);
    ReportedEarlier(first.db.ops[id], start.db.ops[id], side.db.ops[id], Timeout, Plain("no controller result"), StatusChanged);
    SilencesOneMore(own, done, id);
  }

  /** As there are as many different reports as operations, each of them has got one. */
  lemma {:induction false} SilencedEach(own: seq<Action>, ids: set<OpId>)
    requires Silences(own, ids)
    ensures forall id :: Silence(id) in own <==> id in ids
    decreases |own|
  {
    if own != [] {
      var n := |own| - 1;
      var id := own[n].id;
      forall k | 0 <= k < n
        ensures own[k].id in ids - {id}
      {
        assert own[k] != own[n];
      }
      SilencedEach(own[..n], ids - {id});
      assert own == own[..n] + [own[n]];
      forall i
        ensures Silence(i) in own <==> i in ids
      {
        assert Silence(i) in own <==> Silence(i) in own[..n] || i == id;
      }
    } else {
      assert ids == {};
    }
  }

  lemma SilencesOneMore(own: seq<Action>, done: set<OpId>, id: OpId)
    requires Silences(own, done) && id !in done
    ensures Silences(own + [Silence(id)], done + {id})
  {
  }

  lemma StillEnded(before: Db, db: Db, after: Db, ids: set<OpId>)
    requires AllEnded(before, db, ids) && Rely(db, after)
    ensures AllEnded(before, after, ids)
  {
    forall id | id in ids
      ensures id in after.ops && Terminal(after.ops[id].status)
      ensures Reported(before.ops[id], after.ops[id], Timeout, Plain("no controller result"), StatusChanged)
    {
      assert Evolved(db.ops[id], after.ops[id]);
      ReportedStays(before.ops[id], db.ops[id], after.ops[id], Timeout, Plain("no controller result"), StatusChanged);
    }
  }

  /** A timeout report after whatever the others did in between. */
  lemma ReportRely(start: Db, mid: Db, id: OpId, now: int)
    requires Inv(mid) && Rely(start, mid) && id in start.ops
    ensures var after := Next(mid, Report(id, Timeout, Plain("no controller result"), StatusChanged, now));
      && Rely(start, after) && id in after.ops && Terminal(after.ops[id].status)
      && Reported(start.ops[id], after.ops[id], Timeout, Plain("no controller result"), StatusChanged)
  {
    var a := Report(id, Timeout, Plain("no controller result"), StatusChanged, now);
    StepEvolves(mid, a);
    StepKeepsRows(mid, a);
    RelyTransitive(start, mid, Next(mid, a));
    assert Evolved(start.ops[id], mid.ops[id]) && Evolved(Next(mid, a).ops[id], Next(mid, a).ops[id]);
  }
}
