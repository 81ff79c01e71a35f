/** The idempotency middleware: a request claims its key, runs, and leaves its response for repetitions. */
module Idempotency {
  import opened Options

  const MIN_KEY_LENGTH := 8
  const MAX_KEY_LENGTH := 128
  const RECORD_TTL_SEC := 86400.0

  /** Who asked (a hash of the credentials), and the key that came with the request. */
  datatype Key = Key(scope: string, idempotencyKey: string)

  datatype Response = Response(status: nat, body: string, contentType: Option<string>)

  datatype Record = Record(hash: string, response: Option<Response>, createdAt: real, updatedAt: real)

  type Records = map<Key, Record>

  datatype Decision =
    | New
    | Conflict
    | Pending
    | Replay(response: Response)

  predicate Expired(r: Record, now: real) { r.updatedAt < now - RECORD_TTL_SEC }

  function Purge(records: Records, now: real): Records {
    map k | k in records && !Expired(records[k], now) :: records[k]
  }

  function Decide(records: Records, key: Key, hash: string): Decision {
    if key !in records then New
    else if records[key].hash != hash then Conflict
    else if records[key].response.None? then Pending
    else Replay(records[key].response.value)
  }

  /** The locked part of a request: old records go, as of `at`, and a free key is claimed. */
  function Claim(records: Records, key: Key, hash: string, at: real, now: real): Records {
    var kept := Purge(records, at);
    if key in kept then kept else kept[key := Record(hash, None, now, now)]
  }

  function Delete(records: Records, key: Key): Records { records - {key} }

  /** What a finished handler leaves: its response below 500, nothing otherwise. */
  function Store(records: Records, key: Key, response: Response, now: real): Records {
    if response.status >= 500 then Delete(records, key)
    else if key in records then records[key := records[key].(response := Some(response), updatedAt := now)]
    else records
  }

  // ----- all requests of the process -----

  /** A handler at work. */
  datatype Run = Run(id: nat, key: Key, hash: string, startedAt: real)

  datatype State = State(records: Records, runs: set<Run>)

  /** A run ends with a response, with an exception, or abandoned: cancelled, or with a body that is not text. */
  datatype Action =
    | Request(id: nat, key: Key, hash: string)
    | Finish(run: Run, response: Response)
    | Crash(run: Run)
    | Abandon(run: Run)

  /** An action with the times it reads: `at` for the clean-up, `now` for what it writes. */
  datatype Event = Event(action: Action, at: real, now: real)

  predicate Possible(st: State, e: Event) {
    match e.action
    case Request(id, _, _) => e.at <= e.now && forall r :: r in st.runs ==> r.id != id
    case Finish(run, _) => run in st.runs
    case Crash(run) => run in st.runs
    case Abandon(run) => run in st.runs
  }

  function Step(st: State, e: Event): State {
    match e.action
    case Request(id, key, hash) =>
      State(Claim(st.records, key, hash, e.at, e.now),
            if Decide(Purge(st.records, e.at), key, hash) == New then st.runs + {Run(id, key, hash, e.now)} else st.runs)
    case Finish(run, response) => State(Store(st.records, run.key, response, e.now), st.runs - {run})
    case Crash(run) => State(Delete(st.records, run.key), st.runs - {run})
    case Abandon(run) => State(st.records, st.runs - {run})
  }

  function RunAll(st: State, es: seq<Event>): State
    decreases |es|
  {
    if es == [] then st else RunAll(Step(st, es[0]), es[1..])
  }

  /** No handler at work is older than the lifetime of a record. */
  predicate AllYoung(st: State, at: real) {
    forall r :: r in st.runs ==> at <= r.startedAt + RECORD_TTL_SEC
  }

  /** A possible course of events in which runs stay shorter than the lifetime of a record. */
  predicate Course(st: State, es: seq<Event>)
    decreases |es|
  {
    es == [] || (Possible(st, es[0]) && AllYoung(st, es[0].at) && Course(Step(st, es[0]), es[1..]))
  }

  predicate Claimed(records: Records, r: Run) {
    r.key in records && records[r.key] == Record(r.hash, None, r.startedAt, r.startedAt)
  }

  /** Every handler at work holds its own pending record, and no two share a key. */
  predicate Inv(st: State) {
    && (forall r :: r in st.runs ==> Claimed(st.records, r))
    && (forall q, r :: q in st.runs && r in st.runs && q.key == r.key ==> q == r)
  }

  lemma StepKeepsInv(st: State, e: Event)
    requires Inv(st) && Possible(st, e) && AllYoung(st, e.at)
    ensures Inv(Step(st, e))
  {
  }

  /** At most one handler per key is at work, in every interleaving of requests. */
  lemma {:induction false} OneRunPerKey(st: State, es: seq<Event>)
    requires Inv(st) && Course(st, es)
    ensures Inv(RunAll(st, es))
    decreases |es|
  {
    if es != [] {
      StepKeepsInv(st, es[0]);
      OneRunPerKey(Step(st, es[0]), es[1..]);
    }
  }

  predicate NoRun(st: State, key: Key) {
    forall r :: r in st.runs ==> r.key != key
  }

  predicate AllBy(es: seq<Event>, end: real) {
    forall e :: e in es ==> e.at <= end
  }

  /** A record without a run stays as it is until it expires, and nobody runs its key. */
  lemma {:induction false} RecordStays(st: State, es: seq<Event>, key: Key)
    requires Inv(st) && Course(st, es) && NoRun(st, key)
    requires key in st.records && AllBy(es, st.records[key].updatedAt + RECORD_TTL_SEC)
    ensures var later := RunAll(st, es);
      NoRun(later, key) && key in later.records && later.records[key] == st.records[key]
    decreases |es|
  {
    if es != [] {
      StepKeepsInv(st, es[0]);
      RecordStays(Step(st, es[0]), es[1..], key);
    }
  }

  /** What a request would be told at time `at`. */
  function Answer(st: State, key: Key, hash: string, at: real): Decision {
    Decide(Purge(st.records, at), key, hash)
  }

  /** After a run with a status below 500, every request with the key gets the stored response until it
      expires, or a conflict when it asks for something else; no second run starts. */
  lemma FinishedRunIsReplayed(st: State, run: Run, response: Response, e: Event, es: seq<Event>, hash: string, at: real)
    requires Inv(st) && e.action == Finish(run, response) && run in st.runs && response.status < 500
    requires Course(Step(st, e), es) && AllBy(es, e.now + RECORD_TTL_SEC) && at <= e.now + RECORD_TTL_SEC
    ensures var later := RunAll(Step(st, e), es);
      NoRun(later, run.key) && Answer(later, run.key, hash, at) == if hash == run.hash then Replay(response) else Conflict
  {
    assert Claimed(st.records, run);
    assert Inv(Step(st, e)) && NoRun(Step(st, e), run.key);
    RecordStays(Step(st, e), es, run.key);
  }

  /** A run that fails frees its key at once, for any request. */
  lemma FailedRunFreesTheKey(st: State, run: Run, e: Event, hash: string, at: real)
    requires Inv(st) && run in st.runs
    requires e.action == Crash(run) || exists response :: e.action == Finish(run, response) && response.status >= 500
    ensures Answer(Step(st, e), run.key, hash, at) == New && NoRun(Step(st, e), run.key)
  {
    assert Claimed(st.records, run);
  }

  /** An abandoned run blocks its key: it is free again exactly when the record of the claim has expired. */
  lemma AbandonedRunBlocksTheKey(st: State, run: Run, e: Event, es: seq<Event>, hash: string, at: real)
    requires Inv(st) && run in st.runs && e.action == Abandon(run)
    requires Course(Step(st, e), es) && AllBy(es, run.startedAt + RECORD_TTL_SEC)
    ensures var later := RunAll(Step(st, e), es);
      Answer(later, run.key, hash, at) ==
        if at > run.startedAt + RECORD_TTL_SEC then New else if hash == run.hash then Pending else Conflict
  {
    assert Claimed(st.records, run);
    assert Inv(Step(st, e)) && NoRun(Step(st, e), run.key);
    RecordStays(Step(st, e), es, run.key);
  }

  /** While a handler is at work, a request starts a second run of its key exactly when the first one is
      older than the lifetime of a record. */
  lemma SecondRunExactlyWhen(st: State, run: Run, e: Event)
    requires Inv(st) && run in st.runs && Possible(st, e) && e.action.Request? && e.action.key == run.key
    ensures (exists r :: r in Step(st, e).runs && r.key == run.key && r != run) <==> e.at > run.startedAt + 86400.0
  {
    assert Claimed(st.records, run);
    var next := Run(e.action.id, run.key, e.action.hash, e.now);
    assert e.at > run.startedAt + RECORD_TTL_SEC ==> next in Step(st, e).runs;
  }

  const START := State(map[], {})

  /** A possible course of events under a clock that does not run backwards; runs may take any time. */
  predicate PossibleCourse(st: State, es: seq<Event>, from: real)
    decreases |es|
  {
    es == [] || (
      && from <= es[0].at <= es[0].now && Possible(st, es[0])
      && PossibleCourse(Step(st, es[0]), es[1..], es[0].now))
  }

  /** Event `k` finishes a handler at work that is older than the lifetime of a record, and at a later time
      its response is what another request, with another hash, gets for its own key. */
  ghost predicate MixedUp(es: seq<Event>, k: nat, hash: string, at: real) {
    && PossibleCourse(START, es, 0.0) && k < |es| && es[k].action.Finish?
    && var run := es[k].action.run;
      && run in RunAll(START, es[..k]).runs && es[k].now > run.startedAt + RECORD_TTL_SEC
      && hash != run.hash && at >= es[|es| - 1].now
      && Answer(RunAll(START, es), run.key, hash, at) == Replay(es[k].action.response)
  }

  lemma RunOfThree(st: State, a: Event, b: Event, c: Event)
    ensures RunAll(st, [a, b]) == Step(Step(st, a), b)
    ensures RunAll(st, [a, b, c]) == Step(Step(Step(st, a), b), c)
  {
    assert [a, b, c][1..] == [b, c] && [b, c][1..] == [c] && [c][1..] == [] && [a, b][1..] == [b] && [b][1..] == [];
    assert RunAll(Step(st, a), [b]) == Step(Step(st, a), b);
    assert RunAll(Step(Step(st, a), b), [c]) == Step(Step(Step(st, a), b), c);
    assert RunAll(Step(st, a), [b, c]) == RunAll(Step(Step(st, a), b), [c]);
  }

  lemma CourseOfThree(st: State, a: Event, b: Event, c: Event)
    requires 0.0 <= a.at <= a.now <= b.at <= b.now <= c.at <= c.now
    requires Possible(st, a) && Possible(Step(st, a), b) && Possible(Step(Step(st, a), b), c)
    ensures PossibleCourse(st, [a, b, c], 0.0)
  {
    assert [a, b, c][1..] == [b, c] && [b, c][1..] == [c] && [c][1..] == [];
    assert PossibleCourse(Step(Step(st, a), b), [c], b.now);
  }

  /** Without that bound responses get mixed up: a slow first run leaves its response in the record of the
      second request, which asked for something else. */
  lemma SlowRunAnswersForAnother()
    ensures exists es, k, hash, at :: MixedUp(es, k, hash, at)
  {
    var key := Key("user", "12345678");
    var first, second := Run(1, key, "first", 0.0), Run(2, key, "second", 90000.0);
    var response := Response(200, "first", None);
    var a := Event(Request(1, key, "first"), 0.0, 0.0);
    var b := Event(Request(2, key, "second"), 90000.0, 90000.0);
    var c := Event(Finish(first, response), 90000.0, 90000.0);
    var s1 := Step(START, a);
    assert s1.records == map[key := Record("first", None, 0.0, 0.0)] && s1.runs == {first};
    var s2 := Step(s1, b);
    assert s2.records == map[key := Record("second", None, 90000.0, 90000.0)] && s2.runs == {first, second};
    var s3 := Step(s2, c);
    assert s3.records == map[key := Record("second", Some(response), 90000.0, 90000.0)];
    RunOfThree(START, a, b, c);
    CourseOfThree(START, a, b, c);
    assert [a, b, c][..2] == [a, b];
    assert Answer(s3, key, "second", 90000.0) == Replay(response);
    assert MixedUp([a, b, c], 2, "second", 90000.0);
  }

  // ----- one handler among others -----

  predicate Ends(a: Action, run: Run) {
    match a
    case Request(_, _, _) => false
    case Finish(r, _) => r == run
    case Crash(r) => r == run
    case Abandon(r) => r == run
  }

  /** What the other requests may do while `run` is at work. */
  predicate Amid(st: State, es: seq<Event>, run: Run)
    decreases |es|
  {
    es == [] || (Possible(st, es[0]) && !Ends(es[0].action, run) && Amid(Step(st, es[0]), es[1..], run))
  }

  /** The same, as long as their own runs are young. */
  predicate OthersCourse(st: State, es: seq<Event>, run: Run)
    decreases |es|
  {
    es == [] || (
      && Possible(st, es[0]) && !Ends(es[0].action, run) && AllYoung(State(st.records, st.runs - {run}), es[0].at)
      && OthersCourse(Step(st, es[0]), es[1..], run))
  }

  /** As long as `run` is young itself, its record stays its own. */
  lemma {:induction false} OwnRecordStays(st: State, es: seq<Event>, run: Run, end: real)
    requires Inv(st) && run in st.runs && OthersCourse(st, es, run)
    requires AllBy(es, end) && end <= run.startedAt + RECORD_TTL_SEC
    ensures Course(st, es)
    ensures Inv(RunAll(st, es)) && run in RunAll(st, es).runs && Claimed(RunAll(st, es).records, run)
    decreases |es|
  {
    if es != [] {
      assert AllYoung(st, es[0].at);
      StepKeepsInv(st, es[0]);
      OwnRecordStays(Step(st, es[0]), es[1..], run, end);
    }
  }

  // ----- the middleware -----

  datatype HttpRequest = HttpRequest(
    isHttp: bool, verb: string, path: string, scope: string, idempotencyKey: Option<string>, hash: string)

  /** What becomes of the handler. */
  datatype Handled = Responded(response: Response) | Raised | Abandoned

  datatype Outcome =
    | PassedOn
    | Refused(status: nat, code: string)
    | Replayed(response: Response)
    | Answered(response: Response)
    | Broken

  const IDEMPOTENT_METHODS := {"POST", "PUT", "DELETE", "PATCH"}
  const PREFIX := "/api/v3/devices/"

  /** The middleware looks at the request at all. */
  predicate Guarded(request: HttpRequest) {
    request.isHttp && request.verb in IDEMPOTENT_METHODS && PREFIX <= request.path && request.idempotencyKey.Some?
  }

  predicate ProperKey(key: string) { MIN_KEY_LENGTH <= |key| <= MAX_KEY_LENGTH }

  /** What remains of the record after the handler. */
  predicate Settled(records: Records, key: Key, hash: string, handled: Handled) {
    match handled
    case Responded(response) =>
      if response.status >= 500 then key !in records
      else key in records && records[key].hash == hash && records[key].response == Some(response)
    case Raised => key !in records
    case Abandoned => key in records && records[key].hash == hash && records[key].response.None?
  }

  /** How the run ends. */
  function Ending(run: Run, handled: Handled): Action {
    match handled
    case Responded(response) => Finish(run, response)
    case Raised => Crash(run)
    case Abandoned => Abandon(run)
  }

  class IdempotencyMiddleware {
    var records: Records
    /** The handlers at work; the program holds no such field. */
    ghost var runs: set<Run>

    ghost function View(): State
      reads this
    {
      State(records, runs)
    }

    constructor ()
      ensures View() == START
    {
      records, runs := map[], {};
    }

    /** The locked part of a request. */
    method ClaimKey(ghost id: nat, key: Key, hash: string, at: real, now: real) returns (d: Decision)
      modifies this
      ensures View() == Step(old(View()), Event(Request(id, key, hash), at, now))
      ensures d == Answer(old(View()), key, hash, at)
    {
      records := Purge(records, at);
      if key !in records {
        records := records[key := Record(hash, None, now, now)];
        runs := runs + {Run(id, key, hash, now)};
        return New;
      }
      var record := records[key];
      if record.hash != hash {
        return Conflict;
      } else if record.response.None? {
        return Pending;
      }
      return Replay(record.response.value);
    }

    /** While the handler works the other requests of the process go on, until `end`. */
    method LetOthersWork(ghost run: Run, ghost end: real) returns (ghost es: seq<Event>)
      modifies this
      ensures Amid(old(View()), es, run) && AllBy(es, end) && View() == RunAll(old(View()), es)
    {
      es := [];
    }

    method Finalize(ghost run: Run, key: Key, handled: Handled, now: real)
      requires run.key == key
      modifies this
      ensures View() == Step(old(View()), Event(Ending(run, handled), now, now))
    {
      runs := runs - {run};
      if handled.Responded? && handled.response.status < 500 {
        if key in records {
          records := records[key := records[key].(response := Some(handled.response), updatedAt := now)];
        }
      } else if !handled.Abandoned? {
        records := records - {key};
      }
    }

    /** A whole request. `id` names the run if there is one; `others` are the events of the other requests
        while its handler works. If no handler gets older than the lifetime of a record, what it leaves is
        its own. */
    method Call(ghost id: nat, request: HttpRequest, handled: Handled, at: real, now: real, end: real)
      returns (r: Outcome, ghost others: seq<Event>)
      requires at <= now <= end && forall run :: run in runs ==> run.id != id
      modifies this
      ensures !Guarded(request) ==> r == PassedOn && View() == old(View())
      ensures Guarded(request) && !ProperKey(request.idempotencyKey.value) ==>
        r == Refused(400, "invalid_idempotency_key") && View() == old(View())
      ensures Guarded(request) && ProperKey(request.idempotencyKey.value) ==>
        var key := Key(request.scope, request.idempotencyKey.value);
        var claimed := Step(old(View()), Event(Request(id, key, request.hash), at, now));
        match Answer(old(View()), key, request.hash, at)
        case New =>
          && r == (if handled.Responded? then Answered(handled.response) else Broken)
          && RanAmid(claimed, Run(id, key, request.hash, now), others, handled, end, View())
          && (Inv(old(View())) && AllYoung(old(View()), at) && end <= now + RECORD_TTL_SEC
              && OthersCourse(claimed, others, Run(id, key, request.hash, now)) ==>
              Inv(View()) && Settled(records, key, request.hash, handled))
        case Conflict => r == Refused(409, "idempotency_key_conflict") && View() == claimed
        case Pending => r == Refused(409, "idempotency_request_in_progress") && View() == claimed
        case Replay(response) => r == Replayed(response) && View() == claimed
    {
      others := [];
      if !Guarded(request) {
        return PassedOn, others;
      }
      var text := request.idempotencyKey.value;
      if !ProperKey(text) {
        return Refused(400, "invalid_idempotency_key"), others;
      }
      var key := Key(request.scope, text);
      ghost var before := View();
      var decision := ClaimKey(id, key, request.hash, at, now);
      match decision
      case Conflict => return Refused(409, "idempotency_key_conflict"), others;
      case Pending => return Refused(409, "idempotency_request_in_progress"), others;
      case Replay(response) => return Replayed(response), others;
      case New =>
        if Inv(before) && AllYoung(before, at) { StepKeepsInv(before, Event(Request(id, key, request.hash), at, now)); }
        others := RunHandler(Run(id, key, request.hash, now), key, handled, end);
        return if handled.Responded? then Answered(handled.response) else Broken, others;
    }

    /** The handler works while others do, and ends. */
    method RunHandler(ghost run: Run, key: Key, handled: Handled, end: real) returns (ghost others: seq<Event>)
      requires run in runs && run.key == key
      modifies this
      ensures RanAmid(old(View()), run, others, handled, end, View())
      ensures Inv(old(View())) && OthersCourse(old(View()), others, run) && end <= run.startedAt + RECORD_TTL_SEC ==>
        Inv(View()) && Settled(records, key, run.hash, handled)
    {
      ghost var before := View();
      others := LetOthersWork(run, end);
      ghost var during := View();
      Finalize(run, key, handled, end);
      if Inv(before) && OthersCourse(before, others, run) && end <= run.startedAt + RECORD_TTL_SEC {
        OwnRecordStays(before, others, run, end);
        EndingKeepsInv(during, run, handled, end);
      }
    }
  }

  /** The handler of `run` ended at `end`, with the events `others` before it and nothing else. */
  predicate RanAmid(before: State, run: Run, others: seq<Event>, handled: Handled, end: real, after: State) {
    && Amid(before, others, run) && AllBy(others, end)
    && after == Step(RunAll(before, others), Event(Ending(run, handled), end, end))
  }

  lemma EndingKeepsInv(st: State, run: Run, handled: Handled, end: real)
    requires Inv(st) && run in st.runs
    ensures Inv(Step(st, Event(Ending(run, handled), end, end)))
    ensures Settled(Step(st, Event(Ending(run, handled), end, end)).records, run.key, run.hash, handled)
  {
    assert Claimed(st.records, run);
  }
}
