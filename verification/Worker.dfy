/** The background worker: one loop that drains the queue of a key, whatever the devices answer and
    whatever the other participants do meanwhile. */
module Worker {
  import opened Options
  import opened OperationLog
  import opened Protocol
  import opened ProtocolSafety
  import opened ProtocolCalls
  import opened Database

  /** What a request to a device may come to. */
  datatype Outcome =
    | Answered(validDevice: bool)
    | HttpError(code: int, notActive: bool, knownStartFailure: bool, detail: Detail)
    | NoAnswer(saysNotActive: bool)
    | Refused(detail: Detail)

  predicate IsDiscovery(c: Command) {
    c.target.Discovery? && c.verb == Get && c.path == StatusPath && c.payload == None
  }

  predicate AlreadyStopped(c: Command, o: Outcome) {
    c.verb == Post && c.path == StopPath &&
    ((o.HttpError? && o.code == 409 && o.notActive) || (o.NoAnswer? && o.saysNotActive))
  }

  predicate ShouldRetry(c: Command) {
    c.target.Discovery? ||
    (c.verb == Post && (c.path == ConfigPath || c.path == StartPath || c.path == SleepDisablePath || c.path == SleepIntervalPath))
  }

  predicate PermanentStartFailure(c: Command, o: Outcome) {
    c.verb == Post && c.path == StartPath && o.HttpError?
    && (400 <= o.code < 500 || (o.code == 500 && o.knownStartFailure))
  }

  /** The failures after which a retry may be granted. */
  predicate MayRetry(c: Command, o: Outcome) {
    (o.HttpError? || o.NoAnswer?) && ShouldRetry(c) && !AlreadyStopped(c, o) && !PermanentStartFailure(c, o)
  }

  /** How an operation ends when a request has failed and no retry is granted. */
  function FailureReport(c: Command, o: Outcome): (Status, Detail) {
    if AlreadyStopped(c, o) then (Success, Plain("no active watering"))
    else if !ShouldRetry(c) then
      if o.HttpError? then (Error, o.detail) else (Timeout, Plain("device did not respond"))
    else if PermanentStartFailure(c, o) then (Error, o.detail)
    else (Timeout, Plain("device did not respond in time"))
  }

  /** Which failures are tried again and what the others end in, command by command. */
  lemma FailuresByCommand(c: Command, o: Outcome)
    requires c.target.Registered? && (o.HttpError? || o.NoAnswer?)
    ensures c.verb == Post && (c.path == ConfigPath || c.path == SleepDisablePath || c.path == SleepIntervalPath) ==>
      MayRetry(c, o)
    ensures c.verb == Post && c.path == StartPath ==>
      if o.NoAnswer? || o.code < 400 || o.code > 500 || (o.code == 500 && !o.knownStartFailure) then MayRetry(c, o)
      else !MayRetry(c, o) && FailureReport(c, o) == (Error, o.detail)
    ensures c.verb == Post && c.path == StopPath ==>
      && !MayRetry(c, o)
      && FailureReport(c, o) ==
           match o
           case HttpError(code, notActive, _, detail) =>
             if code == 409 && notActive then (Success, Plain("no active watering")) else (Error, detail)
           case NoAnswer(saysNotActive) =>
             if saysNotActive then (Success, Plain("no active watering"))
             else (Timeout, Plain("device did not respond"))
           case _ => (Error, Plain(""))
    ensures c.verb == Get || c.path == StatusPath || c.path == CollectPath || c.path.OtherPath? ==>
      && !MayRetry(c, o)
      && FailureReport(c, o) == if o.HttpError? then (Error, o.detail) else (Timeout, Plain("device did not respond"))
  {
  }

  // ----- the calls of one turn -----

  /** A report, whenever it is made. */
  function Rep(c: Command, status: Status, detail: Detail, kind: EventType): Action {
    Report(c.op, status, detail, kind, 0)
  }

  /** The row is taken off the queue. */
  function Gone(q: nat): seq<Action> { [Protocol.Pop(q, 0)] }

  /** A report, and then the row is taken off the queue. */
  function Ends(q: nat, c: Command, status: Status, detail: Detail, kind: EventType): seq<Action> {
    [Rep(c, status, detail, kind), Protocol.Pop(q, 0)]
  }

  function ToTail(q: nat, c: Command, startedAt: int): seq<Action> { [Requeue(q, c, startedAt, 0)] }

  /** The circumstances of a turn: the row and its command, the start noted for it, what a request made in
      this turn is answered, whether the payload names another device than the command, and whether the
      deadline is still ahead when the turn begins and over when it ends. */
  datatype Case = Case(
    q: nat, c: Command, startedAt: int, answer: Outcome, foreign: bool, ahead: bool, over: bool)

  /** The calls after a request, for every answer. */
  predicate SentAs(own: seq<Action>, k: Case, cancelled: bool) {
    match k.answer
    case Answered(validDevice) =>
      if !IsDiscovery(k.c) then own == Ends(k.q, k.c, Accepted, Plain("device accepted command"), CommandAccepted)
      else
        || (cancelled && own == Gone(k.q))
        || own == (if validDevice then Ends(k.q, k.c, Success, Plain("device discovered"), OperationSucceeded)
                   else Ends(k.q, k.c, Error, Plain("invalid device description"), StatusChanged))
    case Refused(detail) => own == Ends(k.q, k.c, Error, detail, StatusChanged)
    case _ => FailedAs(own, k) || RetriedAs(own, k, cancelled)
  }

  /** A failure that is not tried again. */
  predicate FailedAs(own: seq<Action>, k: Case) {
    && (MayRetry(k.c, k.answer) ==> k.over)
    && own == Ends(k.q, k.c, FailureReport(k.c, k.answer).0, FailureReport(k.c, k.answer).1, StatusChanged)
  }

  /** One that is, before the deadline: behind other commands or in place, unless the operation was cancelled. */
  predicate RetriedAs(own: seq<Action>, k: Case, cancelled: bool) {
    && MayRetry(k.c, k.answer) && k.ahead
    && (own == [] || own == ToTail(k.q, k.c, k.startedAt) || (cancelled && own == Gone(k.q)))
  }

  /** The calls of a collection of statistics, of an operation that has `ended` before or not. */
  predicate CollectedAs(own: seq<Action>, asked: bool, k: Case, ended: bool, cancelled: bool) {
    if ended then own == Gone(k.q) && !asked
    else if k.c.target.Discovery? then
      own == Ends(k.q, k.c, Error, Plain("backend operation requires a registered device ID"), StatusChanged) && !asked
    else if k.foreign then
      own == Ends(k.q, k.c, Error, Plain("operation device ID mismatch"), StatusChanged) && !asked
    else
      || (k.over && !asked && own == Ends(k.q, k.c, Timeout, Plain("backend operation deadline exceeded"), StatusChanged))
      || (k.ahead && asked && ScannedAs(own, k, cancelled))
  }

  predicate ScannedAs(own: seq<Action>, k: Case, cancelled: bool) {
    var running := [Rep(k.c, Running, Plain("backend operation running"), StatusChanged)];
    if !k.answer.Answered? then own == running + Ends(k.q, k.c, Error, Plain("scan failed"), StatusChanged)
    else
      || (cancelled && own == running + Gone(k.q))
      || own == running + Ends(k.q, k.c, Success, Plain("statistics collected"), StatusChanged)
      || (k.over && own == running + Ends(k.q, k.c, Timeout, Plain("backend operation deadline exceeded"), StatusChanged))
  }

  /** A discovery key only ever carries the discovery request. */
  predicate Unsafe(c: Command) { c.target.Discovery? && !IsDiscovery(c) }

  /** The calls of a whole turn, for an operation that was `before` when it began and is `after` at its end;
      `asked` says that a request was made. */
  predicate HandledAs(own: seq<Action>, asked: bool, k: Case, before: Operation, after: Operation) {
    || (after.status == Cancelled && own == Gone(k.q) && !asked)
    || (before.status != Cancelled && ProceededAs(own, asked, k, before, after))
  }

  /** The same, when the operation was not found cancelled. */
  predicate ProceededAs(own: seq<Action>, asked: bool, k: Case, before: Operation, after: Operation) {
    if before.kind == StatisticsCollection then
      || (Terminal(after.status) && CollectedAs(own, asked, k, true, after.status == Cancelled))
      || (!Terminal(before.status) && CollectedAs(own, asked, k, false, after.status == Cancelled))
    else if Unsafe(k.c) then
      own == Ends(k.q, k.c, Error, Plain("unsafe discovery command rejected"), OperationFailed) && !asked
    else asked && SentAs(own, k, after.status == Cancelled)
  }

  lemma CollectedProceeds(own: seq<Action>, asked: bool, k: Case, first: Operation, before: Operation, after: Operation)
    requires Evolved(first, before) && Terminal(after.status) && first.kind == StatisticsCollection
    requires CollectedAs(own, asked, k, Terminal(before.status), after.status == Cancelled)
    ensures ProceededAs(own, asked, k, first, after)
    ensures |own| > 0 && own[|own| - 1] == Protocol.Pop(k.q, 0)
  {
  }

  lemma HandledEarlier(own: seq<Action>, asked: bool, k: Case, first: Operation, before: Operation, after: Operation)
    requires Evolved(first, before) && HandledAs(own, asked, k, before, after)
    ensures HandledAs(own, asked, k, first, after)
  {
  }

  /** How a command is taken up. */
  function Picks(q: nat, c: Command): seq<Action> {
    [Protocol.MarkStarted(q, 0)]
    + if c.startedAt.None? then [Rep(c, Sending, Plain("worker picked operation"), CommandPicked)] else []
  }

  // ----- what is left to do -----

  function Unstarted(sub: map<nat, Command>): set<nat> {
    set q | q in sub && sub[q].startedAt.None?
  }

  /** Started commands have a deadline no later than `horizon`. */
  ghost predicate DeadlinesBy(sub: map<nat, Command>, maxWait: int, horizon: int) {
    forall q :: q in sub && sub[q].startedAt.Some? ==> 0 < sub[q].startedAt.value && sub[q].startedAt.value + maxWait <= horizon
  }

  lemma SmallerSet(a: set<nat>, b: set<nat>)
    requires a <= b
    ensures |a| <= |b| && (a != b ==> |a| < |b|)
  {
    assert b == a + (b - a) && |b| == |a| + |b - a|;
    if a != b { assert b - a != {}; }
  }

  /** Nothing was added: every row that is left was there before and is unchanged. */
  ghost predicate OnlyLess(before: map<nat, Command>, after: map<nat, Command>) {
    forall q :: q in after ==> q in before && after[q] == before[q]
  }

  /** The row `q` went to the tail as row `p`, with a deadline no later than before. */
  ghost predicate WentToTail(before: map<nat, Command>, after: map<nat, Command>, q: nat, p: nat) {
    && q in before && p !in before && p in after && q !in after
    && (forall r :: r in after && r != p ==> r in before && after[r] == before[r])
    && SameCommand(after[p], before[q])
    && before[q].startedAt.Some? && after[p].startedAt.Some? && 0 < after[p].startedAt.value <= before[q].startedAt.value
  }

  lemma PopLeaves(db: Db, q: nat, now: int, key: Option<Target>)
    ensures OnlyLess(Subqueue(db, key), Subqueue(Next(db, Pop(q, now)), key))
    ensures q !in Subqueue(Next(db, Pop(q, now)), key)
  {
  }

  class BackgroundWorker {
    const store: Store
    const maxWait: int
    /** What the requests of this worker are answered, one after the other. */
    const answers: nat -> Outcome
    /** The commands whose payload names another device. */
    const foreign: Command -> bool
    var requests: nat
    var clock: int

    constructor (store: Store, maxWait: int, answers: nat -> Outcome, foreign: Command -> bool, clock: int)
      ensures this.store == store && this.maxWait == maxWait && this.answers == answers && this.foreign == foreign
      ensures this.clock == clock && requests == 0
    {
      this.store, this.maxWait, this.answers, this.foreign := store, maxWait, answers, foreign;
      this.clock, requests := clock, 0;
    }

    ghost function CaseOf(q: nat, c: Command, startedAt: int, request: nat, from: int, to: int): Case {
      Case(q, c, startedAt, answers(request), foreign(c), from - startedAt < maxWait, to - startedAt >= maxWait)
    }

    method Time() returns (now: int)
      modifies this`clock
      ensures old(clock) <= clock == now
    {
      var elapsed: nat :| 0 <= elapsed;
      clock := clock + elapsed;
      now := clock;
    }

    /** Report the end of an operation and take its command off the queue. */
    method Finish(q: nat, c: Command, status: Status, detail: Detail, kind: EventType, key: Option<Target>)
      requires Inv(store.View()) && IsStatusEvent(kind) && Rank(status) >= 2
      requires q <= store.lastId && (q in store.queue ==> store.queue[q].op == c.op) && c.op in store.ops
      modifies store, this`clock
      ensures Inv(store.View()) && old(clock) <= clock && c.op in store.ops
      ensures Did(old(store.Side()), store.Side(), Ends(q, c, status, detail, kind))
      ensures Rank(status) == 4 ==> Terminal(store.ops[c.op].status)
      ensures OnlyLess(Subqueue(old(store.View()), key), Subqueue(store.View(), key)) && q !in Subqueue(store.View(), key)
    {
      ghost var a := store.Side();
      Say(q, c, status, detail, kind, key);
      ghost var b := store.Side();
      Discard(q, c, key);
      DidChain(a, b, store.Side(), [Rep(c, status, detail, kind)], Gone(q));
      assert [Rep(c, status, detail, kind)] + Gone(q) == Ends(q, c, status, detail, kind);
    }

    /** A report, after whatever the others have done. */
    method Say(q: nat, c: Command, status: Status, detail: Detail, kind: EventType, key: Option<Target>)
      requires Inv(store.View()) && IsStatusEvent(kind) && Rank(status) >= 2
      requires q <= store.lastId && (q in store.queue ==> store.queue[q].op == c.op) && c.op in store.ops
      modifies store, this`clock
      ensures Inv(store.View()) && old(clock) <= clock && c.op in store.ops
      ensures Did(old(store.Side()), store.Side(), [Rep(c, status, detail, kind)]) && Rely(old(store.View()), store.View())
      ensures Settled(store.ops[c.op]) && (Rank(status) == 4 ==> Terminal(store.ops[c.op].status))
      ensures OnlyLess(Subqueue(old(store.View()), key), Subqueue(store.View(), key))
    {
      ghost var a := store.Side();
      store.InterfereQuietly(key);
      ghost var b := store.Side();
      assert Evolved(a.db.ops[c.op], b.db.ops[c.op]);
      SayNow(c, status, detail, kind);
      DidChain(a, b, store.Side(), [], [Rep(c, status, detail, kind)]);
      RelyTransitive(a.db, b.db, store.View());
    }

    method SayNow(c: Command, status: Status, detail: Detail, kind: EventType)
      requires Inv(store.View()) && IsStatusEvent(kind) && Rank(status) >= 2 && c.op in store.ops
      modifies store, this`clock
      ensures Inv(store.View()) && old(clock) <= clock && c.op in store.ops
      ensures Did(old(store.Side()), store.Side(), [Rep(c, status, detail, kind)]) && Rely(old(store.View()), store.View())
      ensures Settled(store.ops[c.op]) && (Rank(status) == 4 ==> Terminal(store.ops[c.op].status))
      ensures store.queue == old(store.queue) && store.lastId == old(store.lastId)
    {
      ghost var a := store.Side();
      var now := Time();
      store.Event(c.op, status, detail, kind, now);
      DidKeeps(a, store.Side(), [Rep(c, status, detail, kind)]);
    }

    /** Take a settled command off the queue, after whatever the others have done. */
    method Discard(q: nat, c: Command, key: Option<Target>)
      requires Inv(store.View()) && c.op in store.ops && Settled(store.ops[c.op])
      requires q <= store.lastId && (q in store.queue ==> store.queue[q].op == c.op)
      modifies store, this`clock
      ensures Inv(store.View()) && old(clock) <= clock && c.op in store.ops
      ensures Did(old(store.Side()), store.Side(), Gone(q)) && Evolved(old(store.ops[c.op]), store.ops[c.op])
      ensures OnlyLess(Subqueue(old(store.View()), key), Subqueue(store.View(), key)) && q !in Subqueue(store.View(), key)
    {
      ghost var a := store.Side();
      store.InterfereQuietly(key);
      ghost var b := store.Side();
      assert q in store.queue ==> q in a.db.queue && RowKept(a.db.queue[q], store.queue[q]);
      assert Evolved(a.db.ops[c.op], store.ops[c.op]);
      var now := Time();
      store.Pop(q, now);
      PopLeaves(b.db, q, now, key);
      DidChain(a, b, store.Side(), [], Gone(q));
      DidKeeps(a, store.Side(), Gone(q));
    }

    /** The command in hand is the row `q`, if that is still there, as read before it was marked. */
    ghost predicate InHand(q: nat, c: Command, startedAt: int)
      reads store
    {
      && q <= store.lastId && c.op in store.ops && 0 < startedAt
      && (q in store.queue ==>
        && SameCommand(store.queue[q], c)
        && store.queue[q].startedAt.Some? && startedAt <= store.queue[q].startedAt.value
        && (c.startedAt.Some? ==> c.startedAt == store.queue[q].startedAt && 0 < c.startedAt.value))
    }

    /** Between two calls of the worker the others go on; the command in hand stays what it was. */
    method Others(q: nat, c: Command, startedAt: int, key: Option<Target>)
      requires Inv(store.View()) && InHand(q, c, startedAt)
      modifies store
      ensures Inv(store.View()) && InHand(q, c, startedAt) && Rely(old(store.View()), store.View())
      ensures Did(old(store.Side()), store.Side(), [])
      ensures OnlyLess(Subqueue(old(store.View()), key), Subqueue(store.View(), key))
    {
      ghost var before := store.View();
      store.InterfereQuietly(key);
      assert q in store.queue ==> q in before.queue && RowKept(before.queue[q], store.queue[q]);
    }

    /** A request takes at least one tick, and the others go on meanwhile. */
    method Request(q: nat, c: Command, startedAt: int, key: Option<Target>) returns (o: Outcome)
      requires Inv(store.View()) && InHand(q, c, startedAt)
      modifies this`clock, this`requests, store
      ensures old(clock) < clock && requests == old(requests) + 1 && o == answers(old(requests))
      ensures Inv(store.View()) && InHand(q, c, startedAt) && Rely(old(store.View()), store.View())
      ensures Did(old(store.Side()), store.Side(), [])
      ensures OnlyLess(Subqueue(old(store.View()), key), Subqueue(store.View(), key))
    {
      var elapsed: nat :| 0 <= elapsed;
      clock := clock + elapsed + 1;
      o := answers(requests);
      requests := requests + 1;
      Others(q, c, startedAt, key);
    }

    // ----- statistics -----

    /** Collecting statistics is done by the backend itself. */
    method CollectStatistics(q: nat, c: Command, startedAt: int, key: Option<Target>) returns (ghost own: seq<Action>)
      requires Inv(store.View()) && InHand(q, c, startedAt)
      modifies store, this`clock, this`requests
      ensures Inv(store.View()) && old(clock) <= clock && c.op in store.ops && Terminal(store.ops[c.op].status)
      ensures Did(old(store.Side()), store.Side(), own) && old(requests) <= requests <= old(requests) + 1
      ensures CollectedAs(own, requests > old(requests), CaseOf(q, c, startedAt, old(requests), old(clock), clock),
                          Terminal(old(store.ops[c.op]).status), store.ops[c.op].status == Cancelled)
      ensures OnlyLess(Subqueue(old(store.View()), key), Subqueue(store.View(), key)) && q !in Subqueue(store.View(), key)
    {
      if Terminal(store.ops[c.op].status) {
        Discard(q, c, key);
        return Gone(q);
      }
      own := Collect(q, c, startedAt, key);
    }

    /** The checks before a scan: the device must be the command's, and the deadline still ahead. */
    method Collect(q: nat, c: Command, startedAt: int, key: Option<Target>) returns (ghost own: seq<Action>)
      requires Inv(store.View()) && InHand(q, c, startedAt)
      modifies store, this`clock, this`requests
      ensures Inv(store.View()) && old(clock) <= clock && c.op in store.ops && Terminal(store.ops[c.op].status)
      ensures Did(old(store.Side()), store.Side(), own) && old(requests) <= requests <= old(requests) + 1
      ensures CollectedAs(own, requests > old(requests), CaseOf(q, c, startedAt, old(requests), old(clock), clock),
                          false, store.ops[c.op].status == Cancelled)
      ensures OnlyLess(Subqueue(old(store.View()), key), Subqueue(store.View(), key)) && q !in Subqueue(store.View(), key)
    {
      if c.target.Discovery? {
        own := Fail(q, c, Error, Plain("backend operation requires a registered device ID"), key);
        return own;
      }
      if foreign(c) {
        own := Fail(q, c, Error, Plain("operation device ID mismatch"), key);
        return own;
      }
      var now := Time();
      if now - startedAt >= maxWait {
        own := Fail(q, c, Timeout, Plain("backend operation deadline exceeded"), key);
        return own;
      }
      own := Scan(q, c, startedAt, key);
    }

    /** An end with an ordinary report. */
    method Fail(q: nat, c: Command, status: Status, detail: Detail, key: Option<Target>) returns (ghost own: seq<Action>)
      requires Inv(store.View()) && Rank(status) >= 2
      requires q <= store.lastId && (q in store.queue ==> store.queue[q].op == c.op) && c.op in store.ops
      modifies store, this`clock
      ensures Inv(store.View()) && old(clock) <= clock && c.op in store.ops
      ensures own == Ends(q, c, status, detail, StatusChanged) && Did(old(store.Side()), store.Side(), own)
      ensures Rank(status) == 4 ==> Terminal(store.ops[c.op].status)
      ensures OnlyLess(Subqueue(old(store.View()), key), Subqueue(store.View(), key)) && q !in Subqueue(store.View(), key)
    {
      Finish(q, c, status, detail, StatusChanged, key);
      own := Ends(q, c, status, detail, StatusChanged);
    }

    /** The scan itself, during which the others go on; it may fail. */
    method Scan(q: nat, c: Command, startedAt: int, key: Option<Target>) returns (ghost own: seq<Action>)
      requires Inv(store.View()) && InHand(q, c, startedAt)
      modifies store, this`clock, this`requests
      ensures Inv(store.View()) && old(clock) <= clock && c.op in store.ops && Terminal(store.ops[c.op].status)
      ensures Did(old(store.Side()), store.Side(), own) && requests == old(requests) + 1
      ensures ScannedAs(own, CaseOf(q, c, startedAt, old(requests), old(clock), clock), store.ops[c.op].status == Cancelled)
      ensures OnlyLess(Subqueue(old(store.View()), key), Subqueue(store.View(), key)) && q !in Subqueue(store.View(), key)
    {
      ghost var a := store.Side();
      ghost var running := [Rep(c, Running, Plain("backend operation running"), StatusChanged)];
      Say(q, c, Running, Plain("backend operation running"), StatusChanged, key);
      assert InHand(q, c, startedAt) by { assert q in store.queue ==> q in a.db.queue && RowKept(a.db.queue[q], store.queue[q]); }
      ghost var b := store.Side();
      ghost var rest := FinishScan(q, c, startedAt, key);
      DidChain(a, b, store.Side(), running, rest);
      own := running + rest;
    }

    /** What follows once the scan has been reported as running. */
    method FinishScan(q: nat, c: Command, startedAt: int, key: Option<Target>) returns (ghost rest: seq<Action>)
      requires Inv(store.View()) && InHand(q, c, startedAt)
      modifies store, this`clock, this`requests
      ensures Inv(store.View()) && old(clock) <= clock && c.op in store.ops && Terminal(store.ops[c.op].status)
      ensures Did(old(store.Side()), store.Side(), rest) && requests == old(requests) + 1
      ensures ScannedAs([Rep(c, Running, Plain("backend operation running"), StatusChanged)] + rest,
                        CaseOf(q, c, startedAt, old(requests), old(clock), clock), store.ops[c.op].status == Cancelled)
      ensures OnlyLess(Subqueue(old(store.View()), key), Subqueue(store.View(), key)) && q !in Subqueue(store.View(), key)
    {
      ghost var a := store.Side();
      var o := Request(q, c, startedAt, key);
      ghost var b := store.Side();
      if !o.Answered? {
        rest := Fail(q, c, Error, Plain("scan failed"), key);
      } else {
        rest := ConcludeScan(q, c, startedAt, key);
      }
      DidChain(a, b, store.Side(), [], rest);
    }

    /** A scan that went through counts unless it was cancelled or took too long. */
    method ConcludeScan(q: nat, c: Command, startedAt: int, key: Option<Target>) returns (ghost rest: seq<Action>)
      requires Inv(store.View()) && InHand(q, c, startedAt)
      modifies store, this`clock
      ensures Inv(store.View()) && old(clock) <= clock && c.op in store.ops && Terminal(store.ops[c.op].status)
      ensures Did(old(store.Side()), store.Side(), rest)
      ensures || (rest == Gone(q) && store.ops[c.op].status == Cancelled)
              || (rest == Ends(q, c, Success, Plain("statistics collected"), StatusChanged)
                  && old(clock) - startedAt < maxWait)
              || (rest == Ends(q, c, Timeout, Plain("backend operation deadline exceeded"), StatusChanged)
                  && clock - startedAt >= maxWait)
      ensures OnlyLess(Subqueue(old(store.View()), key), Subqueue(store.View(), key)) && q !in Subqueue(store.View(), key)
    {
      var cancelled := store.IsCancelled(c.op);
      if cancelled {
        Discard(q, c, key);
        return Gone(q);
      }
      var now := Time();
      if now - startedAt >= maxWait {
        rest := Fail(q, c, Timeout, Plain("backend operation deadline exceeded"), key);
      } else {
        rest := Fail(q, c, Success, Plain("statistics collected"), key);
      }
    }

    // ----- requests to a device -----

    /** A retryable failure: the cases that end the operation at once. */
    method GiveUp(q: nat, c: Command, startedAt: int, key: Option<Target>, o: Outcome)
      returns (done: bool, ghost own: seq<Action>)
      requires Inv(store.View()) && InHand(q, c, startedAt) && (o.HttpError? || o.NoAnswer?)
      modifies store, this`clock
      ensures Inv(store.View()) && old(clock) <= clock && c.op in store.ops
      ensures done ==> Did(old(store.Side()), store.Side(), own)
      ensures done ==> OnlyLess(Subqueue(old(store.View()), key), Subqueue(store.View(), key)) && q !in Subqueue(store.View(), key)
      ensures !done ==> old(store.Side()) == store.Side() && old(clock) < startedAt + maxWait && MayRetry(c, o)
      ensures done ==> (
        && own == Ends(q, c, FailureReport(c, o).0, FailureReport(c, o).1, StatusChanged)
        && (MayRetry(c, o) ==> clock - startedAt >= maxWait))
    {
      own := [];
      if AlreadyStopped(c, o) {
        own := Fail(q, c, Success, Plain("no active watering"), key);
        return true, own;
      }
      if !ShouldRetry(c) {
        if o.HttpError? {
          own := Fail(q, c, Error, o.detail, key);
        } else {
          own := Fail(q, c, Timeout, Plain("device did not respond"), key);
        }
        return true, own;
      }
      if PermanentStartFailure(c, o) {
        own := Fail(q, c, Error, o.detail, key);
        return true, own;
      }
      var now := Time();
      if now - startedAt >= maxWait {
        own := Fail(q, c, Timeout, Plain("device did not respond in time"), key);
        return true, own;
      }
      return false, own;
    }

    /** A granted retry: behind the other commands of the key, if there are any; otherwise in place. */
    method GrantRetry(q: nat, c: Command, startedAt: int, key: Option<Target>)
      returns (retried: bool, moved: bool, ghost own: seq<Action>)
      requires Inv(store.View()) && InHand(q, c, startedAt) && (key == None || c.target == key.value)
      modifies store, this`clock
      ensures Inv(store.View()) && old(clock) <= clock && c.op in store.ops
      ensures Did(old(store.Side()), store.Side(), own)
      ensures own == if moved then ToTail(q, c, startedAt) else if retried then [] else Gone(q)
      ensures (moved ==> retried) && (!retried ==> store.ops[c.op].status == Cancelled)
      ensures retried && !moved ==> Alone(Subqueue(store.View(), key), q)
      ensures !moved ==> OnlyLess(Subqueue(old(store.View()), key), Subqueue(store.View(), key))
      ensures !retried ==> q !in Subqueue(store.View(), key)
      ensures moved ==> WentToTail(Subqueue(old(store.View()), key), Subqueue(store.View(), key), q, store.lastId)
                        && store.lastId > old(store.lastId)
    {
      ghost var a := store.Side();
      Others(q, c, startedAt, key);
      ghost var b := store.Side();
      var cancelled := store.IsCancelled(c.op);
      if cancelled {
        Discard(q, c, key);
        DidChain(a, b, store.Side(), [], Gone(q));
        return false, false, Gone(q);
      }
      Others(q, c, startedAt, key);
      ghost var m := store.Side();
      WaitedFirst(a, b, m, [], key, q, false);
      moved := Defer(q, c, startedAt, key);
      retried := true;
      own := if moved then ToTail(q, c, startedAt) else [];
      WaitedFirst(a, m, store.Side(), own, key, q, moved);
    }

    /** Behind the other commands of the key, if there are any. */
    method Defer(q: nat, c: Command, startedAt: int, key: Option<Target>) returns (moved: bool)
      requires Inv(store.View()) && InHand(q, c, startedAt) && (key == None || c.target == key.value)
      modifies store, this`clock
      ensures Inv(store.View()) && old(clock) <= clock && c.op in store.ops
      ensures Did(old(store.Side()), store.Side(), if moved then ToTail(q, c, startedAt) else [])
      ensures !moved ==> store.View() == old(store.View()) && Alone(Subqueue(store.View(), key), q)
      ensures moved ==> WentToTail(Subqueue(old(store.View()), key), Subqueue(store.View(), key), q, store.lastId)
                        && store.lastId > old(store.lastId)
    {
      ghost var db := store.View();
      var now := Time();
      assert q in store.queue ==> OrElse(c.startedAt, startedAt) <= store.queue[q].startedAt.value;
      DidNothing(store.Side());
      var newId := store.MoveToTailIfOther(q, c, startedAt, key, now);
      if newId.Some? {
        MovedToTail(db, q, c, startedAt, now, key);
      }
      return newId.Some?;
    }

    method Retry(q: nat, c: Command, startedAt: int, key: Option<Target>, o: Outcome)
      returns (retried: bool, moved: bool, ghost own: seq<Action>)
      requires Inv(store.View()) && InHand(q, c, startedAt) && (key == None || c.target == key.value)
      requires o.HttpError? || o.NoAnswer?
      modifies store, this`clock
      ensures Inv(store.View()) && old(clock) <= clock && c.op in store.ops
      ensures Did(old(store.Side()), store.Side(), own) && Told(own, retried, moved, q, c, startedAt)
      ensures var k := Case(q, c, startedAt, o, foreign(c), old(clock) - startedAt < maxWait, clock - startedAt >= maxWait);
        FailedAs(own, k) || RetriedAs(own, k, store.ops[c.op].status == Cancelled)
      ensures retried && !moved ==> Alone(Subqueue(store.View(), key), q)
      ensures !moved ==> OnlyLess(Subqueue(old(store.View()), key), Subqueue(store.View(), key))
      ensures !retried ==> q !in Subqueue(store.View(), key)
      ensures retried ==> old(clock) < startedAt + maxWait
      ensures moved ==> WentToTail(Subqueue(old(store.View()), key), Subqueue(store.View(), key), q, store.lastId)
                        && store.lastId > old(store.lastId)
    {
      var done;
      done, own := GiveUp(q, c, startedAt, key, o);
      if done {
        return false, false, own;
      }
      retried, moved, own := GrantRetry(q, c, startedAt, key);
    }

    /** Ask the device, and act on what comes of it. */
    method Send(q: nat, c: Command, startedAt: int, key: Option<Target>)
      returns (retried: bool, moved: bool, ghost own: seq<Action>)
      requires Inv(store.View()) && InHand(q, c, startedAt) && (key == None || c.target == key.value)
      modifies store, this`clock, this`requests
      ensures Inv(store.View()) && old(clock) < clock && c.op in store.ops && requests == old(requests) + 1
      ensures Did(old(store.Side()), store.Side(), own) && Told(own, retried, moved, q, c, startedAt)
      ensures SentAs(own, CaseOf(q, c, startedAt, old(requests), old(clock), clock), store.ops[c.op].status == Cancelled)
      ensures retried && !moved ==> Alone(Subqueue(store.View(), key), q)
      ensures !moved ==> OnlyLess(Subqueue(old(store.View()), key), Subqueue(store.View(), key))
      ensures !retried ==> q !in Subqueue(store.View(), key)
      ensures retried ==> old(clock) < startedAt + maxWait
      ensures moved ==> WentToTail(Subqueue(old(store.View()), key), Subqueue(store.View(), key), q, store.lastId)
                        && store.lastId > old(store.lastId)
    {
      ghost var a := store.Side();
      var o := Request(q, c, startedAt, key);
      ghost var b := store.Side();
      retried, moved, own := Act(q, c, startedAt, o, key);
      WaitedFirst(a, b, store.Side(), own, key, q, moved);
    }

    /** What follows an answer. */
    method Act(q: nat, c: Command, startedAt: int, o: Outcome, key: Option<Target>)
      returns (retried: bool, moved: bool, ghost own: seq<Action>)
      requires Inv(store.View()) && InHand(q, c, startedAt) && (key == None || c.target == key.value)
      modifies store, this`clock
      ensures Inv(store.View()) && old(clock) <= clock && c.op in store.ops
      ensures Did(old(store.Side()), store.Side(), own) && Told(own, retried, moved, q, c, startedAt)
      ensures SentAs(own, Case(q, c, startedAt, o, foreign(c), old(clock) - startedAt < maxWait, clock - startedAt >= maxWait),
                     store.ops[c.op].status == Cancelled)
      ensures retried && !moved ==> Alone(Subqueue(store.View(), key), q)
      ensures !moved ==> OnlyLess(Subqueue(old(store.View()), key), Subqueue(store.View(), key))
      ensures !retried ==> q !in Subqueue(store.View(), key)
      ensures retried ==> old(clock) < startedAt + maxWait
      ensures moved ==> WentToTail(Subqueue(old(store.View()), key), Subqueue(store.View(), key), q, store.lastId)
                        && store.lastId > old(store.lastId)
    {
      if o.Answered? || o.Refused? {
        own := Conclude(q, c, startedAt, o, key);
        retried, moved := false, false;
      } else {
        retried, moved, own := Retry(q, c, startedAt, key, o);
      }
    }

    /** The device answered, or the request was refused for good. */
    method Conclude(q: nat, c: Command, startedAt: int, o: Outcome, key: Option<Target>) returns (ghost own: seq<Action>)
      requires Inv(store.View()) && InHand(q, c, startedAt) && (o.Answered? || o.Refused?)
      modifies store, this`clock
      ensures Inv(store.View()) && old(clock) <= clock && c.op in store.ops
      ensures Did(old(store.Side()), store.Side(), own) && |own| > 0 && own[|own| - 1] == Protocol.Pop(q, 0)
      ensures SentAs(own, Case(q, c, startedAt, o, foreign(c), old(clock) - startedAt < maxWait, clock - startedAt >= maxWait),
                     store.ops[c.op].status == Cancelled)
      ensures OnlyLess(Subqueue(old(store.View()), key), Subqueue(store.View(), key)) && q !in Subqueue(store.View(), key)
    {
      if o.Refused? {
        own := Fail(q, c, Error, o.detail, key);
      } else if !IsDiscovery(c) {
        Finish(q, c, Accepted, Plain("device accepted command"), CommandAccepted, key);
        own := Ends(q, c, Accepted, Plain("device accepted command"), CommandAccepted);
      } else {
        own := ConcludeDiscovery(q, c, startedAt, o.validDevice, key);
      }
    }

    /** A discovered device is registered, unless the discovery was cancelled meanwhile. */
    method ConcludeDiscovery(q: nat, c: Command, startedAt: int, validDevice: bool, key: Option<Target>)
      returns (ghost own: seq<Action>)
      requires Inv(store.View()) && InHand(q, c, startedAt)
      modifies store, this`clock
      ensures Inv(store.View()) && old(clock) <= clock && c.op in store.ops
      ensures Did(old(store.Side()), store.Side(), own)
      ensures || (own == Gone(q) && store.ops[c.op].status == Cancelled)
              || own == if validDevice then Ends(q, c, Success, Plain("device discovered"), OperationSucceeded)
                        else Ends(q, c, Error, Plain("invalid device description"), StatusChanged)
      ensures OnlyLess(Subqueue(old(store.View()), key), Subqueue(store.View(), key)) && q !in Subqueue(store.View(), key)
    {
      var cancelled := store.IsCancelled(c.op);
      if cancelled {
        Discard(q, c, key);
        return Gone(q);
      }
      if validDevice {
        Finish(q, c, Success, Plain("device discovered"), OperationSucceeded, key);
        own := Ends(q, c, Success, Plain("device discovered"), OperationSucceeded);
      } else {
        own := Fail(q, c, Error, Plain("invalid device description"), key);
      }
    }

    // ----- the loop -----

    /** One turn of the loop for the command in hand: it ends, or a retry is granted. */
    method Handle(q: nat, c: Command, startedAt: int, key: Option<Target>)
      returns (retried: bool, moved: bool, ghost own: seq<Action>)
      requires Inv(store.View()) && InHand(q, c, startedAt) && (key == None || c.target == key.value)
      modifies store, this`clock, this`requests
      ensures Inv(store.View()) && old(clock) <= clock && c.op in store.ops
      ensures old(requests) <= requests <= old(requests) + 1
      ensures Did(old(store.Side()), store.Side(), own) && Told(own, retried, moved, q, c, startedAt)
      ensures HandledAs(own, requests > old(requests), CaseOf(q, c, startedAt, old(requests), old(clock), clock),
                        old(store.ops[c.op]), store.ops[c.op])
      ensures retried && !moved ==> Alone(Subqueue(store.View(), key), q)
      ensures !moved ==> OnlyLess(Subqueue(old(store.View()), key), Subqueue(store.View(), key))
      ensures !retried ==> q !in Subqueue(store.View(), key)
      ensures retried ==> old(clock) < clock && old(clock) < startedAt + maxWait
      ensures moved ==> WentToTail(Subqueue(old(store.View()), key), Subqueue(store.View(), key), q, store.lastId)
    {
      ghost var a := store.Side();
      Others(q, c, startedAt, key);
      ghost var b := store.Side();
      assert Evolved(a.db.ops[c.op], b.db.ops[c.op]);
      ghost var first := requests;
      ghost var from := clock;
      retried, moved, own := HandleUnlessCancelled(q, c, startedAt, key);
      HandledEarlier(own, requests > first, CaseOf(q, c, startedAt, first, from, clock),
                     a.db.ops[c.op], b.db.ops[c.op], store.ops[c.op]);
      WaitedFirst(a, b, store.Side(), own, key, q, moved);
    }

    /** The command of a cancelled operation leaves the queue and is not sent. */
    method HandleUnlessCancelled(q: nat, c: Command, startedAt: int, key: Option<Target>)
      returns (retried: bool, moved: bool, ghost own: seq<Action>)
      requires Inv(store.View()) && InHand(q, c, startedAt) && (key == None || c.target == key.value)
      modifies store, this`clock, this`requests
      ensures Inv(store.View()) && old(clock) <= clock && c.op in store.ops
      ensures old(requests) <= requests <= old(requests) + 1
      ensures Did(old(store.Side()), store.Side(), own) && Told(own, retried, moved, q, c, startedAt)
      ensures HandledAs(own, requests > old(requests), CaseOf(q, c, startedAt, old(requests), old(clock), clock),
                        old(store.ops[c.op]), store.ops[c.op])
      ensures retried && !moved ==> Alone(Subqueue(store.View(), key), q)
      ensures !moved ==> OnlyLess(Subqueue(old(store.View()), key), Subqueue(store.View(), key))
      ensures !retried ==> q !in Subqueue(store.View(), key)
      ensures retried ==> old(clock) < clock && old(clock) < startedAt + maxWait
      ensures moved ==> WentToTail(Subqueue(old(store.View()), key), Subqueue(store.View(), key), q, store.lastId)
                        && store.lastId > old(store.lastId)
    {
      var cancelled := store.IsCancelled(c.op);
      if cancelled {
        Discard(q, c, key);
        return false, false, Gone(q);
      }
      retried, moved, own := Dispatch(q, c, startedAt, key);
    }

    /** A command that is not cancelled goes its way by its kind. */
    method Dispatch(q: nat, c: Command, startedAt: int, key: Option<Target>)
      returns (retried: bool, moved: bool, ghost own: seq<Action>)
      requires Inv(store.View()) && InHand(q, c, startedAt) && (key == None || c.target == key.value)
      modifies store, this`clock, this`requests
      ensures Inv(store.View()) && old(clock) <= clock && c.op in store.ops
      ensures old(requests) <= requests <= old(requests) + 1
      ensures Did(old(store.Side()), store.Side(), own) && Told(own, retried, moved, q, c, startedAt)
      ensures ProceededAs(own, requests > old(requests), CaseOf(q, c, startedAt, old(requests), old(clock), clock),
                          old(store.ops[c.op]), store.ops[c.op])
      ensures retried && !moved ==> Alone(Subqueue(store.View(), key), q)
      ensures !moved ==> OnlyLess(Subqueue(old(store.View()), key), Subqueue(store.View(), key))
      ensures !retried ==> q !in Subqueue(store.View(), key)
      ensures retried ==> old(clock) < clock && old(clock) < startedAt + maxWait
      ensures moved ==> WentToTail(Subqueue(old(store.View()), key), Subqueue(store.View(), key), q, store.lastId)
                        && store.lastId > old(store.lastId)
    {
      retried, moved := false, false;
      if store.ops[c.op].kind == StatisticsCollection {
        own := StatisticsAfterOthers(q, c, startedAt, key);
      } else if Unsafe(c) {
        Finish(q, c, Error, Plain("unsafe discovery command rejected"), OperationFailed, key);
        own := Ends(q, c, Error, Plain("unsafe discovery command rejected"), OperationFailed);
      } else {
        retried, moved, own := Send(q, c, startedAt, key);
      }
    }

    /** The operation is read again before its statistics are collected. */
    method StatisticsAfterOthers(q: nat, c: Command, startedAt: int, key: Option<Target>) returns (ghost own: seq<Action>)
      requires Inv(store.View()) && InHand(q, c, startedAt) && store.ops[c.op].kind == StatisticsCollection
      modifies store, this`clock, this`requests
      ensures Inv(store.View()) && old(clock) <= clock && c.op in store.ops
      ensures old(requests) <= requests <= old(requests) + 1
      ensures Did(old(store.Side()), store.Side(), own) && |own| > 0 && own[|own| - 1] == Protocol.Pop(q, 0)
      ensures ProceededAs(own, requests > old(requests), CaseOf(q, c, startedAt, old(requests), old(clock), clock),
                          old(store.ops[c.op]), store.ops[c.op])
      ensures OnlyLess(Subqueue(old(store.View()), key), Subqueue(store.View(), key)) && q !in Subqueue(store.View(), key)
    {
      ghost var a := store.Side();
      Others(q, c, startedAt, key);
      ghost var b := store.Side();
      assert Evolved(a.db.ops[c.op], b.db.ops[c.op]);
      ghost var first, from := requests, clock;
      own := CollectStatistics(q, c, startedAt, key);
      CollectedProceeds(own, requests > first, CaseOf(q, c, startedAt, first, from, clock),
                        a.db.ops[c.op], b.db.ops[c.op], store.ops[c.op]);
      WaitedFirst(a, b, store.Side(), own, key, q, false);
    }

    /** Take up a command that was not in hand yet. */
    method PickUp(q: nat, c: Command, key: Option<Target>) returns (startedAt: int)
      requires Inv(store.View()) && q in Subqueue(store.View(), key) && store.queue[q] == c && 0 < clock
      requires c.startedAt.Some? ==> 0 < c.startedAt.value
      modifies store, this`clock
      ensures Inv(store.View()) && old(clock) <= clock && InHand(q, c, startedAt)
      ensures StartedAs(c, startedAt, old(clock), clock)
      ensures Did(old(store.Side()), store.Side(), Picks(q, c))
      ensures Picked(Subqueue(old(store.View()), key), Subqueue(store.View(), key), q, clock)
    {
      ghost var a := store.Side();
      var now := Time();
      startedAt := OrElse(c.startedAt, now);
      Mark(q, c, startedAt, key);
      ghost var m := store.Side();
      assert c.startedAt.Some? ==> Picks(q, c) == [Protocol.MarkStarted(q, 0)];
      if c.startedAt.None? {
        SayPicked(q, c, startedAt, key);
        DidChain(a, m, store.Side(), [Protocol.MarkStarted(q, 0)], [Rep(c, Sending, Plain("worker picked operation"), CommandPicked)]);
      }
    }

    /** The command is marked as started, unless it was before or is gone. */
    method Mark(q: nat, c: Command, startedAt: int, key: Option<Target>)
      requires Inv(store.View()) && q in Subqueue(store.View(), key) && store.queue[q] == c && 0 < startedAt
      requires if c.startedAt.Some? then startedAt == c.startedAt.value else startedAt <= clock
      modifies store, this`clock
      ensures Inv(store.View()) && old(clock) <= clock && InHand(q, c, startedAt)
      ensures Did(old(store.Side()), store.Side(), [Protocol.MarkStarted(q, 0)])
      ensures Picked(Subqueue(old(store.View()), key), Subqueue(store.View(), key), q, clock)
    {
      ghost var a := store.Side();
      store.InterfereQuietly(key);
      ghost var b := store.Side();
      assert q in store.queue ==> q in a.db.queue && RowKept(a.db.queue[q], store.queue[q]) && q in Subqueue(store.View(), key);
      MarkNow(q, c, startedAt, key);
      DidChain(a, b, store.Side(), [], [Protocol.MarkStarted(q, 0)]);
    }

    method MarkNow(q: nat, c: Command, startedAt: int, key: Option<Target>)
      requires Inv(store.View()) && q <= store.lastId && c.op in store.ops && 0 < startedAt
      requires if c.startedAt.Some? then startedAt == c.startedAt.value else startedAt <= clock
      requires q in store.queue ==> store.queue[q] == c && q in Subqueue(store.View(), key)
      modifies store, this`clock
      ensures Inv(store.View()) && old(clock) <= clock && InHand(q, c, startedAt)
      ensures Did(old(store.Side()), store.Side(), [Protocol.MarkStarted(q, 0)])
      ensures Picked(Subqueue(old(store.View()), key), Subqueue(store.View(), key), q, clock)
    {
      ghost var before := store.View();
      var markedAt := Time();
      store.MarkStarted(q, markedAt);
      MarkIsPick(before, q, markedAt, key);
    }

    /** The pick is reported, after whatever the others have done. */
    method SayPicked(q: nat, c: Command, startedAt: int, key: Option<Target>)
      requires Inv(store.View()) && InHand(q, c, startedAt)
      modifies store, this`clock
      ensures Inv(store.View()) && old(clock) <= clock && InHand(q, c, startedAt)
      ensures Did(old(store.Side()), store.Side(), [Rep(c, Sending, Plain("worker picked operation"), CommandPicked)])
      ensures OnlyLess(Subqueue(old(store.View()), key), Subqueue(store.View(), key))
    {
      ghost var a := store.Side();
      Others(q, c, startedAt, key);
      ghost var b := store.Side();
      var now := Time();
      store.Event(c.op, Sending, Plain("worker picked operation"), CommandPicked, now);
      assert store.queue == b.db.queue;
      DidChain(a, b, store.Side(), [], [Rep(c, Sending, Plain("worker picked operation"), CommandPicked)]);
    }

    /** The turn `t` is one of this worker's. */
    ghost predicate TurnAs(t: TurnRecord, key: Option<Target>) {
      var k, start, end := t.k, t.start.db, t.end.db;
      && k.q in Subqueue(start, key) && start.queue[k.q] == k.c && (forall p :: p in Subqueue(start, key) ==> k.q <= p)
      && k.c.op in start.ops && k.c.op in end.ops
      && k.answer == answers(t.request) && k.foreign == foreign(k.c)
      && (t.picks == [] || t.picks == Picks(k.q, k.c)) && Did(t.start, t.end, t.picks + t.own)
      && HandledAs(t.own, t.asked, k, start.ops[k.c.op], end.ops[k.c.op])
      && (t.own == [] ==> Alone(Subqueue(end, key), k.q))
      && ClockedAs(t)
    }

    /** The clock of a turn, and what it says of the start and the deadline of the command. */
    ghost predicate ClockedAs(t: TurnRecord) {
      && t.began <= t.taken <= t.ended
      && (t.k.ahead <==> t.taken < t.k.startedAt + maxWait) && (t.k.over <==> t.ended >= t.k.startedAt + maxWait)
      && TakenUpAs(t)
    }

    ghost predicate AllTurns(turns: seq<TurnRecord>, key: Option<Target>) {
      forall i :: 0 <= i < |turns| ==> TurnAs(turns[i], key)
    }

    /** The worker drains the queue of its key: whatever the devices answer, whenever the others cancel or drop,
        the loop ends, after turns as described and nothing else, with no command of the key left. Every
        operation that had one is still there and no longer waits for it. */
    method RunUntilEmpty(key: Option<Target>) returns (ghost turns: seq<TurnRecord>)
      requires Inv(store.View()) && 0 < clock
      requires forall q :: q in store.queue && store.queue[q].startedAt.Some? ==> 0 < store.queue[q].startedAt.value
      modifies store, this`clock, this`requests
      ensures Inv(store.View()) && Subqueue(store.View(), key) == map[]
      ensures AllTurns(turns, key) && Linked(old(store.Side()), turns, store.Side(), old(requests))
      ensures Continued(turns, old(clock)) && LastEnd(turns, old(clock)) <= clock
      ensures Rely(old(store.View()), store.View())
      ensures forall q :: q in Subqueue(old(store.View()), key) ==> Through(store.View(), old(store.queue)[q].op)
      ensures key == None && store.View().phase == Free ==>
        forall id :: id in store.ops && !store.ops[id].kind.CallbackProbe? ==> Settled(store.ops[id])
    {
      var active: Option<nat> := None;
      var startedAt := 0;
      ghost var start, first, from := store.Side(), requests, clock;
      ghost var horizon := LatestDeadline(Subqueue(store.View(), key), maxWait);
      turns := [];
      DidNothing(start);
      while true
        invariant Inv(store.View()) && 0 < clock
        invariant LoopHolds(start, turns, first, key) && OneInHand(active, startedAt, horizon, key)
        invariant Continued(turns, from) && LastEnd(turns, from) <= clock && HeldFrom(turns, active, startedAt)
        decreases |Subqueue(store.View(), key).Keys|, |Unstarted(Subqueue(store.View(), key))|,
                  if horizon > clock then horizon - clock else 0
      {
        var head := store.Peek(key);
        if head.None? {
          NothingWaits(store.View(), key);
          LinkedRan(start, turns, store.Side(), first);
          AllThrough(start.db, store.View(), key);
          return;
        }
        var again;
        startedAt, again, horizon, turns := NextTurn(head.value, key, active, startedAt, horizon, start, turns, first, from);
        active := if again then head else None;
      }
    }

    /** What the loop has done so far. */
    ghost predicate LoopHolds(start: Side, turns: seq<TurnRecord>, first: nat, key: Option<Target>)
      reads this, store
    {
      AllTurns(turns, key) && Linked(start, turns, store.Side(), first) && requests == first + Requests(turns)
    }

    /** The command in hand, if it is still there, and the deadlines of all that are started. */
    ghost predicate OneInHand(active: Option<nat>, startedAt: int, horizon: int, key: Option<Target>)
      reads this, store
    {
      && DeadlinesBy(Subqueue(store.View(), key), maxWait, horizon)
      && (active.Some? && active.value in Subqueue(store.View(), key) ==>
            InHand(active.value, store.queue[active.value], startedAt) && store.queue[active.value].startedAt.Some?)
    }

    /** One turn more. */
    method NextTurn(q: nat, key: Option<Target>, active: Option<nat>, since: int, ghost horizon: int,
                    ghost start: Side, ghost turns: seq<TurnRecord>, ghost first: nat, ghost from: int)
      returns (startedAt: int, again: bool, ghost newHorizon: int, ghost more: seq<TurnRecord>)
      requires Inv(store.View()) && 0 < clock && q in Subqueue(store.View(), key)
      requires forall p :: p in Subqueue(store.View(), key) ==> q <= p
      requires LoopHolds(start, turns, first, key) && OneInHand(active, since, horizon, key)
      requires Continued(turns, from) && LastEnd(turns, from) <= clock && HeldFrom(turns, active, since)
      modifies store, this`clock, this`requests
      ensures Inv(store.View()) && 0 < clock
      ensures LoopHolds(start, more, first, key) && OneInHand(if again then Some(q) else None, startedAt, newHorizon, key)
      ensures Continued(more, from) && LastEnd(more, from) <= clock
      ensures HeldFrom(more, if again then Some(q) else None, startedAt)
      ensures Less(Subqueue(old(store.View()), key), Subqueue(store.View(), key), horizon, newHorizon, old(clock), clock)
    {
      ghost var t;
      startedAt, again, newHorizon, t := Turn(q, key, active, since, horizon);
      more := turns + [t];
      OneMoreTurn(start, turns, t, first);
      OneMoreProper(turns, t, key);
      OneMoreContinues(turns, t, from, active, since, q);
    }

    lemma OneMoreProper(turns: seq<TurnRecord>, t: TurnRecord, key: Option<Target>)
      requires AllTurns(turns, key) && TurnAs(t, key)
      ensures AllTurns(turns + [t], key)
    {
    }

    /** Take up the head of the queue, unless it is in hand already. */
    method Take(q: nat, key: Option<Target>, active: Option<nat>, since: int, ghost horizon: int)
      returns (startedAt: int, ghost newHorizon: int, ghost picks: seq<Action>)
      requires Inv(store.View()) && 0 < clock && q in Subqueue(store.View(), key)
      requires DeadlinesBy(Subqueue(store.View(), key), maxWait, horizon)
      requires active == Some(q) ==> InHand(q, store.queue[q], since) && store.queue[q].startedAt.Some?
      modifies store, this`clock
      ensures Inv(store.View()) && old(clock) <= clock && InHand(q, old(store.queue[q]), startedAt)
      ensures if active == Some(q) then startedAt == since else StartedAs(old(store.queue[q]), startedAt, old(clock), clock)
      ensures picks == (if active == Some(q) then [] else Picks(q, old(store.queue[q]))) && Did(old(store.Side()), store.Side(), picks)
      ensures Taken(Subqueue(old(store.View()), key), Subqueue(store.View(), key), q, startedAt, maxWait, horizon, newHorizon)
    {
      startedAt := since;
      picks := [];
      DidNothing(store.Side());
      if active != Some(q) {
        picks := Picks(q, store.queue[q]);
        startedAt := PickUp(q, store.queue[q], key);
      }
      ghost var picked := Subqueue(store.View(), key);
      newHorizon := horizon;
      if q in picked && picked[q].startedAt.value + maxWait > horizon {
        newHorizon := picked[q].startedAt.value + maxWait;
      }
    }

    /** One turn of the loop. */
    method Turn(q: nat, key: Option<Target>, active: Option<nat>, since: int, ghost horizon: int)
      returns (startedAt: int, again: bool, ghost newHorizon: int, ghost t: TurnRecord)
      requires Inv(store.View()) && 0 < clock && q in Subqueue(store.View(), key)
      requires forall p :: p in Subqueue(store.View(), key) ==> q <= p
      requires DeadlinesBy(Subqueue(store.View(), key), maxWait, horizon)
      requires active == Some(q) ==> InHand(q, store.queue[q], since) && store.queue[q].startedAt.Some?
      modifies store, this`clock, this`requests
      ensures Inv(store.View()) && 0 < clock && DeadlinesBy(Subqueue(store.View(), key), maxWait, newHorizon)
      ensures again && q in Subqueue(store.View(), key) ==>
        InHand(q, store.queue[q], startedAt) && store.queue[q].startedAt.Some?
      ensures TurnAs(t, key) && t.start == old(store.Side()) && t.end == store.Side() && t.request == old(requests)
      ensures t.began == old(clock) && t.ended <= clock && t.k.q == q && t.k.startedAt == startedAt
      ensures (again <==> t.own == []) && (t.picks == [] <==> active == Some(q)) && (active == Some(q) ==> startedAt == since)
      ensures requests == old(requests) + if t.asked then 1 else 0
      ensures Less(Subqueue(old(store.View()), key), Subqueue(store.View(), key), horizon, newHorizon, old(clock), clock)
    {
      ghost var a := store.Side();
      var retried, moved;
      ghost var picked;
      startedAt, retried, moved, newHorizon, picked, t := Work(q, key, active, since, horizon);
      again := retried && !moved;
      if again {
        var woken := Time();
      }
      assert store.View() == t.end.db;
      TurnMeasure(Subqueue(a.db, key), picked, Subqueue(t.end.db, key), q, store.lastId, startedAt,
                  retried, moved, maxWait, horizon, newHorizon, old(clock), clock);
    }

    /** The command is taken up and handled; `picked` is the queue in between. */
    method Work(q: nat, key: Option<Target>, active: Option<nat>, since: int, ghost horizon: int)
      returns (startedAt: int, retried: bool, moved: bool, ghost newHorizon: int, ghost picked: map<nat, Command>,
               ghost t: TurnRecord)
      requires Inv(store.View()) && 0 < clock && q in Subqueue(store.View(), key)
      requires forall p :: p in Subqueue(store.View(), key) ==> q <= p
      requires DeadlinesBy(Subqueue(store.View(), key), maxWait, horizon)
      requires active == Some(q) ==> InHand(q, store.queue[q], since) && store.queue[q].startedAt.Some?
      modifies store, this`clock, this`requests
      ensures Inv(store.View()) && TurnAs(t, key) && t.start == old(store.Side()) && t.end == store.Side()
      ensures t.request == old(requests) && requests == old(requests) + if t.asked then 1 else 0
      ensures t.began == old(clock) && t.ended == clock && t.k.q == q && t.k.startedAt == startedAt && 0 < startedAt
      ensures (retried && !moved <==> t.own == []) && (t.picks == [] <==> active == Some(q)) && (active == Some(q) ==> startedAt == since)
      ensures Taken(Subqueue(old(store.View()), key), picked, q, startedAt, maxWait, horizon, newHorizon)
      ensures q in Subqueue(store.View(), key) && retried && !moved ==>
        InHand(q, store.queue[q], startedAt) && store.queue[q].startedAt.Some?
      ensures !moved ==> OnlyLess(picked, Subqueue(store.View(), key))
      ensures !retried ==> q !in Subqueue(store.View(), key)
      ensures moved ==> retried && WentToTail(picked, Subqueue(store.View(), key), q, store.lastId)
      ensures retried ==> old(clock) < clock && old(clock) < startedAt + maxWait
    {
      var c := store.queue[q];
      ghost var a := store.Side();
      ghost var picks;
      startedAt, newHorizon, picks := Take(q, key, active, since, horizon);
      ghost var b := store.Side();
      picked := Subqueue(b.db, key);
      ghost var first, from := requests, clock;
      ghost var own;
      retried, moved, own := Handle(q, c, startedAt, key);
      t := TurnRecord(a, store.Side(), old(clock), from, clock, first, picks, own, requests > first,
                      CaseOf(q, c, startedAt, first, from, clock));
      TurnIsDone(t, key, b);
    }

    /** A turn is what was done to take the command up, and what was done with it. */
    lemma TurnIsDone(t: TurnRecord, key: Option<Target>, b: Side)
      requires Inv(t.start.db) && t.k.q in Subqueue(t.start.db, key) && t.start.db.queue[t.k.q] == t.k.c
      requires forall p :: p in Subqueue(t.start.db, key) ==> t.k.q <= p
      requires t.k.answer == answers(t.request) && t.k.foreign == foreign(t.k.c)
      requires t.picks == [] || t.picks == Picks(t.k.q, t.k.c)
      requires Did(t.start, b, t.picks) && Did(b, t.end, t.own)
      requires t.k.c.op in b.db.ops && t.k.c.op in t.end.db.ops
      requires HandledAs(t.own, t.asked, t.k, b.db.ops[t.k.c.op], t.end.db.ops[t.k.c.op])
      requires t.own == [] ==> Alone(Subqueue(t.end.db, key), t.k.q)
      requires ClockedAs(t)
      ensures TurnAs(t, key)
    {
      DidChain(t.start, b, t.end, t.picks, t.own);
      DidKeeps(t.start, b, t.picks);
      HandledEarlier(t.own, t.asked, t.k, t.start.db.ops[t.k.c.op], b.db.ops[t.k.c.op], t.end.db.ops[t.k.c.op]);
    }
  }

  /** One turn of the loop: from `start` to `end` the command was taken up, unless it was in hand, and then
      handled; the clock showed `began`, then `taken`, then `ended`; `request` is the number of the request
      that was made, if one was `asked`. */
  datatype TurnRecord = TurnRecord(
    start: Side, end: Side, began: int, taken: int, ended: int, request: nat, picks: seq<Action>, own: seq<Action>, asked: bool, k: Case)

  /** How many requests the turns have made. */
  function Requests(turns: seq<TurnRecord>): nat {
    if turns == [] then 0 else Requests(turns[..|turns| - 1]) + if turns[|turns| - 1].asked then 1 else 0
  }

  /** From `a` to `b` one turn followed the other, with the others going on in between, and the requests are
      numbered through from `first`. */
  ghost predicate Linked(a: Side, turns: seq<TurnRecord>, b: Side, first: nat)
    decreases |turns|
  {
    if turns == [] then Did(a, b, [])
    else
      var n := |turns| - 1;
      && Linked(a, turns[..n], turns[n].start, first)
      && turns[n].request == first + Requests(turns[..n])
      && Did(turns[n].start, turns[n].end, turns[n].picks + turns[n].own) && Did(turns[n].end, b, [])
  }

  lemma {:induction false} LinkedRan(a: Side, turns: seq<TurnRecord>, b: Side, first: nat)
    requires Linked(a, turns, b, first)
    ensures Ran(a.db, b.db)
    decreases |turns|
  {
    if turns == [] {
      GoesRan(a.db, [], b.db);
    } else {
      var n := |turns| - 1;
      var t := turns[n];
      LinkedRan(a, turns[..n], t.start, first);
      GoesRan(t.start.db, t.picks + t.own, t.end.db);
      GoesRan(t.end.db, [], b.db);
      RanChain(a.db, t.start.db, t.end.db);
      RanChain(a.db, t.end.db, b.db);
    }
  }

  lemma OneMoreTurn(a: Side, turns: seq<TurnRecord>, t: TurnRecord, first: nat)
    requires Linked(a, turns, t.start, first) && t.request == first + Requests(turns)
    requires Did(t.start, t.end, t.picks + t.own)
    ensures Linked(a, turns + [t], t.end, first)
    ensures Requests(turns + [t]) == Requests(turns) + if t.asked then 1 else 0
  {
    assert (turns + [t])[..|turns|] == turns;
    DidNothing(t.end);
  }

  /** The start noted for a command when it is taken up: its own if it has one, and the time otherwise. */
  predicate StartedAs(c: Command, startedAt: int, began: int, taken: int) {
    if c.startedAt.Some? then startedAt == c.startedAt.value else began <= startedAt <= taken
  }

  /** A turn begins when the one before it has ended. It finds its command in hand exactly when that one has
      left the same command in place, and then the start noted for it stays. */
  ghost predicate Continues(turns: seq<TurnRecord>, i: nat, from: int)
    requires i < |turns|
  {
    var t := turns[i];
    if i == 0 then t.picks != [] && from <= t.began
    else
      var before := turns[i - 1];
      && before.ended <= t.began
      && (t.picks == [] <==> before.own == [] && before.k.q == t.k.q)
      && (t.picks == [] ==> t.k.startedAt == before.k.startedAt)
  }

  ghost predicate Continued(turns: seq<TurnRecord>, from: int) {
    forall i: nat :: i < |turns| ==> Continues(turns, i, from)
  }

  function LastEnd(turns: seq<TurnRecord>, from: int): int {
    if turns == [] then from else turns[|turns| - 1].ended
  }

  /** The command in hand is the one that the last turn has left in place. */
  ghost predicate HeldFrom(turns: seq<TurnRecord>, active: Option<nat>, startedAt: int) {
    if turns == [] then active == None
    else
      var last := turns[|turns| - 1];
      if last.own == [] then active == Some(last.k.q) && startedAt == last.k.startedAt else active == None
  }

  lemma OneMoreContinues(turns: seq<TurnRecord>, t: TurnRecord, from: int, active: Option<nat>, since: int, q: nat)
    requires Continued(turns, from) && LastEnd(turns, from) <= t.began && HeldFrom(turns, active, since)
    requires t.k.q == q && (t.picks == [] <==> active == Some(q)) && (active == Some(q) ==> t.k.startedAt == since)
    ensures Continued(turns + [t], from)
  {
    var all := turns + [t];
    forall i: nat | i < |all|
      ensures Continues(all, i, from)
    {
      if i < |turns| {
        assert Continues(turns, i, from);
        assert all[i] == turns[i] && (i > 0 ==> all[i - 1] == turns[i - 1]);
      }
    }
  }

  // ----- when a retry is due -----

  /** The turn in which the command that turn `i` handles was taken up. */
  function TakenUp(turns: seq<TurnRecord>, i: nat): (j: nat)
    requires i < |turns|
    ensures j <= i
  {
    if i == 0 || turns[i].picks != [] then i else TakenUp(turns, i - 1)
  }

  predicate TakenUpAs(t: TurnRecord) {
    t.picks != [] ==> StartedAs(t.k.c, t.k.startedAt, t.began, t.taken)
  }

  ghost predicate AllStarted(turns: seq<TurnRecord>) {
    forall i: nat :: i < |turns| ==> TakenUpAs(turns[i])
  }

  lemma TurnsStart(w: BackgroundWorker, turns: seq<TurnRecord>, key: Option<Target>)
    requires w.AllTurns(turns, key)
    ensures AllStarted(turns)
  {
    forall i: nat | i < |turns|
      ensures TakenUpAs(turns[i])
    {
      assert w.TurnAs(turns[i], key);
    }
  }

  /** The start that counts for the deadline is the row's own; of a row without one, the time at which it was
      taken up. */
  lemma {:induction false} StartIsOwn(turns: seq<TurnRecord>, from: int, i: nat)
    requires AllStarted(turns) && Continued(turns, from) && i < |turns|
    ensures var t := turns[TakenUp(turns, i)];
      t.k.q == turns[i].k.q && StartedAs(t.k.c, turns[i].k.startedAt, t.began, t.taken)
  {
    assert Continues(turns, i, from) && TakenUpAs(turns[i]);
    if i > 0 && turns[i].picks == [] { StartIsOwn(turns, from, i - 1); }
  }

  /** When the deadline can be over at the earliest, and when it is over at the latest. */
  function EarliestEnd(t: TurnRecord, maxWait: int): int {
    (if t.k.c.startedAt.Some? then t.k.c.startedAt.value else t.began) + maxWait
  }

  function LatestEnd(t: TurnRecord, maxWait: int): int {
    (if t.k.c.startedAt.Some? then t.k.c.startedAt.value else t.taken) + maxWait
  }

  /** A retryable failure was the answer, and the operation is not cancelled. */
  predicate FailedForNow(t: TurnRecord) {
    && t.k.c.op in t.start.db.ops && t.start.db.ops[t.k.c.op].kind != StatisticsCollection
    && t.k.c.op in t.end.db.ops && t.end.db.ops[t.k.c.op].status != Cancelled
    && t.asked && MayRetry(t.k.c, t.k.answer)
  }

  /** While the deadline is ahead, reckoned from the row's own start or from when it was first taken up, a
      retryable failure ends in a retry and never in a timeout; once it is over, always in the timeout. */
  lemma RetryIsDue(w: BackgroundWorker, turns: seq<TurnRecord>, key: Option<Target>, from: int, i: nat)
    requires w.AllTurns(turns, key) && Continued(turns, from) && i < |turns| && FailedForNow(turns[i])
    ensures var t, up := turns[i], turns[TakenUp(turns, i)];
      && (t.ended < EarliestEnd(up, w.maxWait) ==> t.own == [] || t.own == ToTail(t.k.q, t.k.c, t.k.startedAt))
      && (t.taken >= LatestEnd(up, w.maxWait) ==>
            t.own == Ends(t.k.q, t.k.c, Timeout, Plain("device did not respond in time"), StatusChanged))
  {
    TurnsStart(w, turns, key);
    StartIsOwn(turns, from, i);
    assert w.TurnAs(turns[i], key);
  }

  // ----- what a turn means for the operation -----

  /** The turn has reported this to its operation, and what that did is in the log. */
  ghost predicate TurnReported(t: TurnRecord, status: Status, detail: Detail, kind: EventType) {
    && t.k.c.op in t.start.db.ops && t.k.c.op in t.end.db.ops
    && ReportLanded(t.start.db.ops[t.k.c.op], t.end.db.ops[t.k.c.op], status, detail, kind)
  }

  lemma EndsAreReported(w: BackgroundWorker, t: TurnRecord, key: Option<Target>, status: Status, detail: Detail, kind: EventType)
    requires w.TurnAs(t, key) && Inv(t.start.db) && t.own == Ends(t.k.q, t.k.c, status, detail, kind)
    ensures TurnReported(t, status, detail, kind)
  {
    var calls := t.picks + t.own;
    assert calls[|t.picks|] == Rep(t.k.c, status, detail, kind);
    CallIsReported(t.start.db, calls, t.end.db, |t.picks|);
  }

  /** What a turn with a request means for an operation that collects no statistics: a device that took the command
      makes it accepted, a refusal is its error, a valid discovery its success and an invalid one its error, unless
      it was cancelled; a start that fails for good is an error, and a stop that found nothing to stop a success. */
  lemma TurnMeans(w: BackgroundWorker, t: TurnRecord, key: Option<Target>)
    requires w.TurnAs(t, key) && Inv(t.start.db) && t.asked
    requires t.start.db.ops[t.k.c.op].kind != StatisticsCollection && t.end.db.ops[t.k.c.op].status != Cancelled
    ensures t.k.answer.Answered? && t.k.c.target.Registered? ==>
      TurnReported(t, Accepted, Plain("device accepted command"), CommandAccepted)
    ensures t.k.answer.Answered? && t.k.c.target.Discovery? && t.k.answer.validDevice ==>
      TurnReported(t, Success, Plain("device discovered"), OperationSucceeded)
    ensures t.k.answer.Answered? && t.k.c.target.Discovery? && !t.k.answer.validDevice ==>
      TurnReported(t, Error, Plain("invalid device description"), StatusChanged)
    ensures t.k.answer.Refused? ==> TurnReported(t, Error, t.k.answer.detail, StatusChanged)
    ensures t.k.answer.HttpError? && t.k.c.target.Registered? && t.k.c.verb == Post && t.k.c.path == StartPath
            && 400 <= t.k.answer.code < 500 ==>
      TurnReported(t, Error, t.k.answer.detail, StatusChanged)
    ensures t.k.answer.HttpError? && t.k.c.target.Registered? && t.k.c.verb == Post && t.k.c.path == StopPath
            && t.k.answer.code == 409 && t.k.answer.notActive ==>
      TurnReported(t, Success, Plain("no active watering"), StatusChanged)
  {
    var c, o := t.k.c, t.k.answer;
    if o.Answered? && c.target.Registered? {
      EndsAreReported(w, t, key, Accepted, Plain("device accepted command"), CommandAccepted);
    } else if o.Answered? && IsDiscovery(c) {
      if o.validDevice {
        EndsAreReported(w, t, key, Success, Plain("device discovered"), OperationSucceeded);
      } else {
        EndsAreReported(w, t, key, Error, Plain("invalid device description"), StatusChanged);
      }
    } else if o.Refused? {
      EndsAreReported(w, t, key, Error, o.detail, StatusChanged);
    } else if (o.HttpError? || o.NoAnswer?) && !MayRetry(c, o) {
      EndsAreReported(w, t, key, FailureReport(c, o).0, FailureReport(c, o).1, StatusChanged);
    }
  }

  /** No other command waits beside row `q`. */
  ghost predicate Alone(sub: map<nat, Command>, q: nat) {
    q in sub ==> forall p :: p in sub ==> p == q
  }

  /** How the calls tell a retry, in place or behind the others, from an end. */
  ghost predicate Told(own: seq<Action>, retried: bool, moved: bool, q: nat, c: Command, startedAt: int) {
    && (moved <==> own == ToTail(q, c, startedAt))
    && (retried <==> moved || own == [])
    && (!retried ==> |own| > 0 && own[|own| - 1] == Protocol.Pop(q, 0))
  }

  lemma AllThrough(before: Db, after: Db, key: Option<Target>)
    requires Inv(before) && Ran(before, after) && Subqueue(after, key) == map[]
    ensures Rely(before, after)
    ensures forall q :: q in Subqueue(before, key) ==> Through(after, before.queue[q].op)
  {
    RanKeeps(before, after);
    forall q | q in Subqueue(before, key)
      ensures Through(after, before.queue[q].op)
    {
      DrainedIsThrough(before, after, key, q);
    }
  }

  /** The command in hand is started now, if it is still there; a start from before stands. */
  ghost predicate Taken(sub: map<nat, Command>, picked: map<nat, Command>, q: nat, startedAt: int, maxWait: int, h: int, h': int) {
    && q in sub && DeadlinesBy(picked, maxWait, h')
    && (forall r :: r in picked ==> r in sub) && (forall r :: r in picked && r != q ==> picked[r] == sub[r])
    && (q in picked ==> picked[q].startedAt.Some?)
    && (sub[q].startedAt.Some? && q in picked ==> picked[q] == sub[q] && startedAt <= sub[q].startedAt.value && h' == h)
  }

  lemma MarkIsPick(db: Db, q: nat, now: int, key: Option<Target>)
    requires q in Subqueue(db, key) ==> 0 < if db.queue[q].startedAt.Some? then db.queue[q].startedAt.value else now
    ensures Picked(Subqueue(db, key), Subqueue(Next(db, MarkStarted(q, now)), key), q, now)
  {
  }

  /** `q` may be gone, and is started now if it is not; the other rows may only have gone. */
  ghost predicate Picked(before: map<nat, Command>, after: map<nat, Command>, q: nat, now: int) {
    && (forall r :: r in after && r != q ==> r in before && after[r] == before[r])
    && (q in after ==>
      && q in before && SameCommand(after[q], before[q]) && after[q].startedAt.Some?
      && 0 < after[q].startedAt.value
      && (before[q].startedAt.Some? ==> after[q] == before[q])
      && (before[q].startedAt.None? ==> after[q].startedAt.value <= now))
  }

  /** The lexicographic measure of the worker's loop goes down. */
  ghost predicate Less(before: map<nat, Command>, after: map<nat, Command>, h: int, h': int, t: int, t': int) {
    || |after.Keys| < |before.Keys|
    || (|after.Keys| == |before.Keys| && |Unstarted(after)| < |Unstarted(before)|)
    || (|after.Keys| == |before.Keys| && |Unstarted(after)| == |Unstarted(before)| && h == h' && t < t' && t < h)
  }

  lemma NothingWaits(db: Db, key: Option<Target>)
    requires Inv(db) && Subqueue(db, key) == map[]
    ensures key == None && db.phase == Free ==>
      forall id :: id in db.ops && !db.ops[id].kind.CallbackProbe? ==> Settled(db.ops[id])
  {
    if key == None {
      assert db.queue == Subqueue(db, key);
      assert forall id :: !HasCommand(db, id);
    }
  }

  /** Some horizon covers the deadlines of all started commands. */
  lemma LatestDeadline(sub: map<nat, Command>, maxWait: int) returns (horizon: int)
    requires forall q :: q in sub && sub[q].startedAt.Some? ==> 0 < sub[q].startedAt.value
    ensures DeadlinesBy(sub, maxWait, horizon)
  {
    var todo := sub.Keys;
    horizon := 0;
    while todo != {}
      invariant todo <= sub.Keys
      invariant forall q :: q in sub && q !in todo && sub[q].startedAt.Some? ==> sub[q].startedAt.value + maxWait <= horizon
    {
      var q :| q in todo;
      if sub[q].startedAt.Some? && sub[q].startedAt.value + maxWait > horizon {
        horizon := sub[q].startedAt.value + maxWait;
      }
      todo := todo - {q};
    }
  }

  /** After each turn fewer commands are left, or as many but fewer unstarted ones, or the deadlines stay
      where they are while the clock goes on. */
  lemma Progress(sub: map<nat, Command>, picked: map<nat, Command>, after: map<nat, Command>,
                 q: nat, p: nat, retried: bool, moved: bool, maxWait: int, horizon: int)
    requires q in sub && DeadlinesBy(picked, maxWait, horizon)
    requires forall r :: r in picked ==> r in sub
    requires q in picked ==> picked[q].startedAt.Some?
    requires forall r :: r in picked && r != q ==> picked[r] == sub[r]
    requires !moved ==> OnlyLess(picked, after)
    requires !retried ==> q !in after
    requires moved ==> retried && WentToTail(picked, after, q, p)
    ensures DeadlinesBy(after, maxWait, horizon)
    ensures |after.Keys| <= |sub.Keys|
    ensures !retried ==> |after.Keys| < |sub.Keys|
    ensures |Unstarted(after)| <= |Unstarted(sub)|
    ensures sub[q].startedAt.None? ==> |Unstarted(after)| < |Unstarted(sub)|
    ensures q !in picked ==> |after.Keys| < |sub.Keys|
  {
    SmallerSet(picked.Keys, sub.Keys);
    if moved {
      assert after.Keys <= picked.Keys - {q} + {p};
      SmallerSet(after.Keys, picked.Keys - {q} + {p});
    } else {
      SmallerSet(after.Keys, picked.Keys);
      if q !in after { SmallerSet(after.Keys, sub.Keys - {q}); }
    }
    assert q !in Unstarted(after);
    SmallerSet(Unstarted(after), Unstarted(sub));
  }

  /** Whatever a turn does to its command, the measure of the loop goes down. */
  lemma TurnMeasure(sub: map<nat, Command>, picked: map<nat, Command>, after: map<nat, Command>, q: nat, p: nat, startedAt: int,
                    retried: bool, moved: bool, maxWait: int, h: int, h': int, t: int, t': int)
    requires Taken(sub, picked, q, startedAt, maxWait, h, h') && DeadlinesBy(sub, maxWait, h)
    requires !moved ==> OnlyLess(picked, after)
    requires !retried ==> q !in after
    requires moved ==> retried && WentToTail(picked, after, q, p)
    requires retried ==> t < t' && t < startedAt + maxWait
    ensures DeadlinesBy(after, maxWait, h') && Less(sub, after, h, h', t, t')
  {
    Progress(sub, picked, after, q, p, retried, moved, maxWait, h');
  }

  /** The others went on first, and then this side did `own`. */
  lemma WaitedFirst(a: Side, b: Side, c: Side, own: seq<Action>, key: Option<Target>, q: nat, moved: bool)
    requires Inv(a.db) && Did(a, b, []) && Did(b, c, own) && OnlyLess(Subqueue(a.db, key), Subqueue(b.db, key))
    requires !moved ==> OnlyLess(Subqueue(b.db, key), Subqueue(c.db, key))
    requires moved ==> WentToTail(Subqueue(b.db, key), Subqueue(c.db, key), q, c.db.lastId) && c.db.lastId > a.db.lastId
    ensures Did(a, c, own)
    ensures !moved ==> OnlyLess(Subqueue(a.db, key), Subqueue(c.db, key))
    ensures moved ==> WentToTail(Subqueue(a.db, key), Subqueue(c.db, key), q, c.db.lastId)
  {
    DidChain(a, b, c, [], own);
    if moved {
      assert c.db.lastId !in a.db.queue;
      LessThenTail(Subqueue(a.db, key), Subqueue(b.db, key), Subqueue(c.db, key), q, c.db.lastId);
    }
  }

  lemma LessThenTail(a: map<nat, Command>, b: map<nat, Command>, c: map<nat, Command>, q: nat, p: nat)
    requires OnlyLess(a, b) && WentToTail(b, c, q, p) && p !in a
    ensures WentToTail(a, c, q, p)
  {
    assert a[q] == b[q];
  }

  lemma MovedToTail(db: Db, q: nat, c: Command, startedAt: int, now: int, key: Option<Target>)
    requires Inv(db) && q in db.queue && SameCommand(db.queue[q], c) && 0 < startedAt
    requires db.queue[q].startedAt.Some? && startedAt <= db.queue[q].startedAt.value
    requires c.startedAt.Some? ==> c.startedAt == db.queue[q].startedAt && 0 < c.startedAt.value
    requires q in Subqueue(db, key)
    ensures var after := Next(db, Requeue(q, c, startedAt, now));
      WentToTail(Subqueue(db, key), Subqueue(after, key), q, after.lastId) && after.lastId == db.lastId + 1
  {
    assert db.lastId + 1 !in db.queue;
  }
}
