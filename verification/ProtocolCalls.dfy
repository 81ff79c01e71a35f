/** One side of the protocol: what it has asked of the database, call by call, while any number of
    steps of the others fall between its calls. */
module ProtocolCalls {
  import opened Options
  import opened OperationLog
  import opened Protocol
  import opened ProtocolSafety

  /** The second state is reached from the first by steps that were possible. */
  ghost predicate Ran(db: Db, after: Db) {
    exists steps :: Possible(db, steps) && Run(db, steps) == after
  }

  /** The action at another time. */
  function At(a: Action, t: int): Action {
    if a.DropStarts? || a.DropDevice? then a else a.(at := t)
  }

  /** The action, whenever it is taken. */
  function Untimed(a: Action): Action { At(a, 0) }

  ghost predicate Called(db: Db, a: Action, after: Db) {
    exists t :: CalledAt(db, a, t, after)
  }

  ghost predicate CalledAt(db: Db, a: Action, t: int, after: Db) {
    Enabled(db, At(a, t)) && Ran(Next(db, At(a, t)), after)
  }

  function Front(own: seq<Action>): (r: seq<Action>)
    requires own != []
    ensures |r| == |own| - 1
  {
    own[..|own| - 1]
  }

  function Last(own: seq<Action>): Action
    requires own != []
  {
    own[|own| - 1]
  }

  /** Between the two states the calls `own` were made, in that order, each when it was possible; what
      else happened are steps of the others. */
  ghost predicate Goes(db: Db, own: seq<Action>, after: Db)
    decreases |own|
  {
    if own == [] then Ran(db, after)
    else exists mid :: Goes(db, Front(own), mid) && Called(mid, Last(own), after)
  }

  /** The calls made so far by one side, and the state of the database. */
  datatype Side = Side(calls: seq<Action>, db: Db)

  /** From `a` to `b` this side has made exactly the calls `own`, and the others whatever they liked. */
  ghost predicate Did(a: Side, b: Side, own: seq<Action>) {
    b.calls == a.calls + own && Goes(a.db, own, b.db)
  }

  // ----- runs -----

  lemma {:induction false} RunsJoin(db: Db, a: seq<Action>, b: seq<Action>)
    requires Possible(db, a) && Possible(Run(db, a), b)
    ensures Possible(db, a + b) && Run(db, a + b) == Run(Run(db, a), b)
    decreases |b|
  {
    if b == [] {
      assert a + b == a;
    } else {
      var n := |b| - 1;
      RunsJoin(db, a, b[..n]);
      assert (a + b)[..|a + b| - 1] == a + b[..n];
    }
  }

  lemma RanNothing(db: Db)
    ensures Ran(db, db)
  {
    assert Possible(db, []) && Run(db, []) == db;
  }

  lemma RanChain(a: Db, b: Db, c: Db)
    requires Ran(a, b) && Ran(b, c)
    ensures Ran(a, c)
  {
    var x :| Possible(a, x) && Run(a, x) == b;
    var y :| Possible(b, y) && Run(b, y) == c;
    RunsJoin(a, x, y);
  }

  lemma RanStep(db: Db, a: Action)
    requires Enabled(db, a)
    ensures Ran(db, Next(db, a))
  {
    var steps := [a];
    assert steps[..|steps| - 1] == [] && steps[|steps| - 1] == a;
    assert Run(db, steps[..|steps| - 1]) == db && Possible(db, steps[..|steps| - 1]);
    assert Possible(db, steps) && Run(db, steps) == Next(db, a);
  }

  lemma RanKeeps(db: Db, after: Db)
    requires Inv(db) && Ran(db, after)
    ensures Inv(after) && Rely(db, after)
  {
    var steps :| Possible(db, steps) && Run(db, steps) == after;
    RunKeepsInv(db, steps);
    RunRely(db, steps);
  }

  // ----- calls among the steps of the others -----

  lemma CalledOn(db: Db, a: Action, mid: Db, after: Db)
    requires Called(db, a, mid) && Ran(mid, after)
    ensures Called(db, a, after)
  {
    var t :| CalledAt(db, a, t, mid);
    RanChain(Next(db, At(a, t)), mid, after);
    assert CalledAt(db, a, t, after);
  }

  lemma GoesOn(db: Db, own: seq<Action>, mid: Db, after: Db)
    requires Goes(db, own, mid) && Ran(mid, after)
    ensures Goes(db, own, after)
  {
    if own == [] {
      RanChain(db, mid, after);
    } else {
      var b :| Goes(db, Front(own), b) && Called(b, Last(own), mid);
      CalledOn(b, Last(own), mid, after);
    }
  }

  lemma JoinedEnd(xs: seq<Action>, ys: seq<Action>)
    requires ys != []
    ensures Front(xs + ys) == xs + Front(ys) && Last(xs + ys) == Last(ys)
  {
    var a, b := Front(xs + ys), xs + Front(ys);
    assert |a| == |b| && forall k :: 0 <= k < |a| ==> a[k] == b[k];
  }

  lemma {:induction false} GoesChain(a: Db, xs: seq<Action>, b: Db, ys: seq<Action>, c: Db)
    requires Goes(a, xs, b) && Goes(b, ys, c)
    ensures Goes(a, xs + ys, c)
    decreases |ys|
  {
    if ys == [] {
      assert xs + ys == xs;
      GoesOn(a, xs, b, c);
    } else {
      var m :| Goes(b, Front(ys), m) && Called(m, Last(ys), c);
      GoesChain(a, xs, b, Front(ys), m);
      JoinedEnd(xs, ys);
    }
  }

  /** Whatever calls are made, the whole is a possible run. */
  lemma {:induction false} GoesRan(db: Db, own: seq<Action>, after: Db)
    requires Goes(db, own, after)
    ensures Ran(db, after)
    decreases |own|
  {
    if own != [] {
      var mid :| Goes(db, Front(own), mid) && Called(mid, Last(own), after);
      var t :| CalledAt(mid, Last(own), t, after);
      GoesRan(db, Front(own), mid);
      RanStep(mid, At(Last(own), t));
      RanChain(db, mid, Next(mid, At(Last(own), t)));
      RanChain(db, Next(mid, At(Last(own), t)), after);
    }
  }

  lemma DidChain(a: Side, b: Side, c: Side, xs: seq<Action>, ys: seq<Action>)
    requires Did(a, b, xs) && Did(b, c, ys)
    ensures Did(a, c, xs + ys)
    ensures xs == [] ==> Did(a, c, ys)
    ensures ys == [] ==> Did(a, c, xs)
  {
    GoesChain(a.db, xs, b.db, ys, c.db);
    CallsJoin(a.calls, xs, ys);
  }

  lemma CallsJoin(calls: seq<Action>, xs: seq<Action>, ys: seq<Action>)
    ensures (calls + xs) + ys == calls + (xs + ys)
    ensures xs == [] ==> xs + ys == ys
    ensures ys == [] ==> xs + ys == xs
  {
  }

  lemma DidNothing(a: Side)
    ensures Did(a, a, [])
  {
    RanNothing(a.db);
  }

  /** The others took a run of steps. */
  lemma DidWait(a: Side, steps: seq<Action>)
    requires Possible(a.db, steps)
    ensures Did(a, Side(a.calls, Run(a.db, steps)), [])
  {
    assert Ran(a.db, Run(a.db, steps));
  }

  lemma DidStep(a: Side, action: Action)
    requires Enabled(a.db, action)
    ensures Did(a, Side(a.calls + [Untimed(action)], Next(a.db, action)), [Untimed(action)])
  {
    var own := [Untimed(action)];
    var t := if action.DropStarts? || action.DropDevice? then 0 else action.at;
    RanNothing(a.db);
    RanNothing(Next(a.db, action));
    assert At(Untimed(action), t) == action;
    assert Front(own) == [] && Goes(a.db, Front(own), a.db);
    assert CalledAt(a.db, Last(own), t, Next(a.db, action));
  }

  /** Calls among the steps of the others keep what every run keeps. */
  lemma DidKeeps(a: Side, b: Side, own: seq<Action>)
    requires Inv(a.db) && Did(a, b, own)
    ensures Inv(b.db) && Rely(a.db, b.db)
  {
    GoesRan(a.db, own, b.db);
    RanKeeps(a.db, b.db);
  }

  // ----- what a call means for the operation -----

  lemma CalledKeeps(db: Db, a: Action, after: Db)
    requires Inv(db) && Called(db, a, after)
    ensures Inv(after) && Rely(db, after)
  {
    var t :| CalledAt(db, a, t, after);
    RanStep(db, At(a, t));
    RanChain(db, Next(db, At(a, t)), after);
    RanKeeps(db, after);
  }

  lemma CalledIsReported(db: Db, a: Action, after: Db)
    requires Inv(db) && Called(db, a, after) && a.Report? && a.id in db.ops
    ensures a.id in after.ops && Reported(db.ops[a.id], after.ops[a.id], a.status, a.detail, a.kind)
  {
    var t :| CalledAt(db, a, t, after);
    StepKeepsInv(db, At(a, t));
    RanKeeps(Next(db, At(a, t)), after);
    assert Evolved(Record(db.ops[a.id], a.status, a.detail, a.kind, t), after.ops[a.id]);
  }

  /** Every report among the calls of one side has reached its operation, at its turn, and stays in its log. */
  lemma {:induction false} CallIsReported(db: Db, own: seq<Action>, after: Db, k: nat)
    requires Inv(db) && Goes(db, own, after) && k < |own| && own[k].Report? && own[k].id in db.ops
    ensures var a := own[k];
      && a.id in after.ops && Reported(db.ops[a.id], after.ops[a.id], a.status, a.detail, a.kind)
      && ReportLanded(db.ops[a.id], after.ops[a.id], a.status, a.detail, a.kind)
    decreases |own|
  {
    var a := own[k];
    var mid :| Goes(db, Front(own), mid) && Called(mid, Last(own), after);
    GoesRan(db, Front(own), mid);
    RanKeeps(db, mid);
    if k == |own| - 1 {
      CalledIsReported(mid, a, after);
      ReportedEarlier(db.ops[a.id], mid.ops[a.id], after.ops[a.id], a.status, a.detail, a.kind);
    } else {
      CallIsReported(db, Front(own), mid, k);
      CalledKeeps(mid, Last(own), after);
      ReportedStays(db.ops[a.id], mid.ops[a.id], after.ops[a.id], a.status, a.detail, a.kind);
    }
    ReportedLands(db.ops[a.id], after.ops[a.id], a.status, a.detail, a.kind);
  }

  // ----- a drained queue -----

  /** The operation needs no command any more, unless the clearing of its device is about to cancel it. */
  predicate Through(db: Db, id: OpId) {
    id in db.ops && (Settled(db.ops[id]) || (db.phase.Clearing? && db.ops[id].device == Some(db.phase.device)))
  }

  /** Once the queue of a key is empty, every operation that had a command in it is still there and through. */
  lemma DrainedIsThrough(before: Db, after: Db, key: Option<Target>, q: nat)
    requires Inv(before) && Ran(before, after) && q in Subqueue(before, key) && Subqueue(after, key) == map[]
    ensures Through(after, before.queue[q].op) && !HasCommand(after, before.queue[q].op)
  {
    var c := before.queue[q];
    var steps :| Possible(before, steps) && Run(before, steps) == after;
    RanKeeps(before, after);
    assert HasCommand(before, c.op);
    RunKeepsCommand(before, steps, c.op, c);
    assert forall p :: p in after.queue && after.queue[p].op == c.op ==> p in Subqueue(after, key);
    assert Evolved(before.ops[c.op], after.ops[c.op]);
  }
}
