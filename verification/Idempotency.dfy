/** The idempotency protocol of the write routes.

    Any number of requests run `intercept` at once. Each awaited database call is one atomic
    step, and the unique index on (key, staffId, route) is the only thing they share. `Step` says
    what each step does to the table and to the request that takes it; `Interceptor` performs the
    same steps on its fields; the theorems are about every run of steps. */
module Idempotency {
  import opened Prelude

  type Body = string

  /** The unique index: one record per key, staff member and route. */
  datatype Key = Key(key: string, staffId: string, route: string)

  /** `response` is present exactly when `completedAt` is set. */
  datatype Record = Record(id: nat, requestHash: string, response: Option<Body>)

  datatype Reply =
    | Executed(body: Body)
    | Replayed(body: Body)
    | PayloadConflict
    | InFlightConflict
    | Failed

  /** Where a request stands between two awaited calls. */
  datatype Phase = Arrived | Creating | Raced | Handling | Completing | Releasing | Done(reply: Reply)

  datatype Request = Request(key: Key, requestHash: string)

  /** One run of `intercept`: `claimed` and `produced` are its `claim.id` and `result`. */
  datatype Run = Run(request: Request, phase: Phase, claimed: Option<nat>, produced: Option<Body>)

  datatype State = State(records: map<Key, Record>, nextId: nat, runs: map<nat, Run>)

  const EMPTY := State(map[], 0, map[])

  datatype Action =
    | Arrive(r: nat, request: Request)
    | Find(r: nat)
    | Create(r: nat, write: Write)
    | FindRaced(r: nat)
    | HandlerReturns(r: nat, body: Body)
    | HandlerThrows(r: nat)
    | Complete(r: nat, write: Write)
    | Release(r: nat, write: Write)
    | Crash(r: nat)

  function AsReplay(record: Record, requestHash: string): Reply {
    if record.requestHash != requestHash then PayloadConflict
    else if record.response.None? then InFlightConflict
    else Replayed(record.response.value)
  }

  /** What a duplicate is told: another payload under the key is a conflict before anything else, then a
      request without a response yet is still in flight, and only then is the response repeated. */
  ghost predicate ToldAs(record: Record, requestHash: string, reply: Reply) {
    if record.requestHash != requestHash then reply.PayloadConflict?
    else if record.response.None? then reply.InFlightConflict?
    else reply.Replayed? && reply.body == record.response.value
  }

  /** The record this run created is still in the table. */
  predicate Holds(records: map<Key, Record>, run: Run) {
    && run.claimed.Some?
    && run.request.key in records
    && records[run.request.key].id == run.claimed.value
  }

  predicate Enabled(s: State, a: Action) {
    match a
    case Arrive(r, _) => r !in s.runs
    case Find(r) => r in s.runs && s.runs[r].phase.Arrived?
    case Create(r, _) => r in s.runs && s.runs[r].phase.Creating?
    case FindRaced(r) => r in s.runs && s.runs[r].phase.Raced?
    case HandlerReturns(r, _) => r in s.runs && s.runs[r].phase.Handling?
    case HandlerThrows(r) => r in s.runs && s.runs[r].phase.Handling?
    case Complete(r, _) => r in s.runs && s.runs[r].phase.Completing?
    case Release(r, _) => r in s.runs && s.runs[r].phase.Releasing?
    case Crash(r) => r in s.runs && !s.runs[r].phase.Done?
  }

  function Goto(s: State, r: nat, phase: Phase): State
    requires r in s.runs
  {
    s.(runs := s.runs[r := s.runs[r].(phase := phase)])
  }

  /** `create`: the unique index refuses a second row, and the loser goes to look at the winner's. */
  function CreateStep(s: State, r: nat, write: Write): State
    requires r in s.runs
  {
    var run := s.runs[r];
    if write.Refused? then Goto(s, r, Done(Failed))
    else if run.request.key in s.records then Goto(s, r, Raced)
    else
      var inserted := s.(records := s.records[run.request.key := Record(s.nextId, run.request.requestHash, None)],
                         nextId := s.nextId + 1);
      if write.AckLost? then Goto(inserted, r, Done(Failed))
      else inserted.(runs := s.runs[r := run.(phase := Handling, claimed := Some(s.nextId))])
  }

  /** The completion write; whatever error the caller sees sends it to release the key. */
  function CompleteStep(s: State, r: nat, write: Write): State
    requires r in s.runs
  {
    var run := s.runs[r];
    if write.Refused? || !Holds(s.records, run) || run.produced.None? then Goto(s, r, Releasing)
    else
      var key := run.request.key;
      var written := s.(records := s.records[key := s.records[key].(response := run.produced)]);
      Goto(written, r, if write.AckLost? then Releasing else Done(Executed(run.produced.value)))
  }

  /** The delete by id; its own failure is swallowed and the original error is thrown. */
  function ReleaseStep(s: State, r: nat, write: Write): State
    requires r in s.runs
  {
    var run := s.runs[r];
    var records := if write.Refused? || !Holds(s.records, run) then s.records else s.records - {run.request.key};
    Goto(s.(records := records), r, Done(Failed))
  }

  function Step(s: State, a: Action): State {
    if !Enabled(s, a) then s else
    match a
    case Arrive(r, request) => s.(runs := s.runs[r := Run(request, Arrived, None, None)])
    case Find(r) =>
      var request := s.runs[r].request;
      Goto(s, r, if request.key in s.records then Done(AsReplay(s.records[request.key], request.requestHash)) else Creating)
    case Create(r, write) => CreateStep(s, r, write)
    case FindRaced(r) =>
      var request := s.runs[r].request;
      Goto(s, r, Done(if request.key in s.records then AsReplay(s.records[request.key], request.requestHash) else Failed))
    case HandlerReturns(r, body) =>
      s.(runs := s.runs[r := s.runs[r].(phase := Completing, produced := Some(body))])
    case HandlerThrows(r) => Goto(s, r, Releasing)
    case Complete(r, write) => CompleteStep(s, r, write)
    case Release(r, write) => ReleaseStep(s, r, write)
    case Crash(r) => Goto(s, r, Done(Failed))
  }

  function RunAll(s: State, actions: seq<Action>): State
    decreases |actions|
  {
    if actions == [] then s else RunAll(Step(s, actions[0]), actions[1..])
  }

  // ------------------------------------------------------------ the invariant

  /** The run owns the record of its key and has not given it up. */
  predicate Owner(run: Run) {
    run.phase.Handling? || run.phase.Completing? || run.phase.Releasing? || (run.phase.Done? && run.phase.reply.Executed?)
  }

  ghost predicate RunOk(s: State, run: Run) {
    && (run.claimed.Some? ==> run.claimed.value < s.nextId)
    && (Owner(run) ==> Holds(s.records, run) && s.records[run.request.key].requestHash == run.request.requestHash)
    && (run.phase.Handling? ==> s.records[run.request.key].response.None?)
    && (run.phase.Completing? ==> run.produced.Some? && s.records[run.request.key].response.None?)
    && (run.phase.Done? && run.phase.reply.Executed? ==>
          run.produced == Some(run.phase.reply.body) && s.records[run.request.key].response == run.produced)
    && (run.phase.Arrived? || run.phase.Creating? || run.phase.Raced? ==> run.claimed.None?)
    && (run.produced.Some? ==> run.phase.Completing? || run.phase.Releasing? || run.phase.Done?)
  }

  /** A handler run with this key and payload returned this body. */
  ghost predicate Produced(s: State, key: Key, requestHash: string, body: Body) {
    exists r :: r in s.runs && s.runs[r].request == Request(key, requestHash) && s.runs[r].produced == Some(body)
  }

  ghost predicate ClaimsDistinct(s: State) {
    forall r, q :: r in s.runs && q in s.runs && s.runs[r].claimed.Some? && s.runs[r].claimed == s.runs[q].claimed ==> r == q
  }

  ghost predicate Sourced(s: State) {
    && (forall k :: k in s.records && s.records[k].response.Some? ==>
          Produced(s, k, s.records[k].requestHash, s.records[k].response.value))
    && (forall r :: r in s.runs && s.runs[r].phase.Done? && s.runs[r].phase.reply.Replayed? ==>
          Produced(s, s.runs[r].request.key, s.runs[r].request.requestHash, s.runs[r].phase.reply.body))
  }

  ghost predicate Valid(s: State) {
    && (forall k :: k in s.records ==> s.records[k].id < s.nextId)
    && (forall r :: r in s.runs ==> RunOk(s, s.runs[r]))
    && ClaimsDistinct(s)
    && Sourced(s)
  }

  /** A step keeps every run's request, and never forgets or changes what a handler returned. */
  lemma StepKeepsHistory(s: State, a: Action, r: nat)
    requires r in s.runs && RunOk(s, s.runs[r])
    ensures r in Step(s, a).runs && Step(s, a).runs[r].request == s.runs[r].request
    ensures s.runs[r].produced.Some? ==> Step(s, a).runs[r].produced == s.runs[r].produced
    ensures r != a.r ==> Step(s, a).runs[r] == s.runs[r]
  {
  }

  lemma StepKeepsProduced(s: State, a: Action, key: Key, requestHash: string, body: Body)
    requires Valid(s) && Produced(s, key, requestHash, body)
    ensures Produced(Step(s, a), key, requestHash, body)
  {
    hide Step;
    var r :| r in s.runs && s.runs[r].request == Request(key, requestHash) && s.runs[r].produced == Some(body);
    assert RunOk(s, s.runs[r]);
    StepKeepsHistory(s, a, r);
  }

  /** No step of one run touches the record another run owns: their claims differ. */
  lemma OthersRecordUntouched(s: State, a: Action, r: nat)
    requires Valid(s) && r in s.runs && r != a.r && Owner(s.runs[r])
    ensures var key := s.runs[r].request.key; key in Step(s, a).records && Step(s, a).records[key] == s.records[key]
  {
    assert RunOk(s, s.runs[r]);
    if a.r in s.runs { assert RunOk(s, s.runs[a.r]); }
  }

  lemma IdsOnlyGrow(s: State, a: Action)
    ensures s.nextId <= Step(s, a).nextId
  {
  }

  lemma OwnStepKeepsRunOk(s: State, a: Action)
    requires Enabled(s, a) && (a.r in s.runs ==> RunOk(s, s.runs[a.r]))
    ensures a.r in Step(s, a).runs && RunOk(Step(s, a), Step(s, a).runs[a.r])
  {
  }

  lemma StepKeepsRunOk(s: State, a: Action, r: nat)
    requires Valid(s) && r in Step(s, a).runs
    ensures RunOk(Step(s, a), Step(s, a).runs[r])
  {
    if !Enabled(s, a) {
      assert RunOk(s, s.runs[r]);
    } else if r == a.r {
      OwnStepKeepsRunOk(s, a);
    } else {
      assert RunOk(s, s.runs[r]);
      OtherStepKeepsRunOk(s, a, r);
    }
  }

  lemma OtherStepKeepsRunOk(s: State, a: Action, r: nat)
    requires Valid(s) && r in s.runs && RunOk(s, s.runs[r]) && r != a.r
    ensures r in Step(s, a).runs && RunOk(Step(s, a), Step(s, a).runs[r])
  {
    hide Step;
    StepKeepsHistory(s, a, r);
    IdsOnlyGrow(s, a);
    if Owner(s.runs[r]) { OthersRecordUntouched(s, a, r); }
  }

  lemma StepKeepsClaims(s: State, a: Action)
    requires Valid(s)
    ensures ClaimsDistinct(Step(s, a))
  {
    forall r | r in s.runs ensures s.runs[r].claimed.Some? ==> s.runs[r].claimed.value < s.nextId {
      assert RunOk(s, s.runs[r]);
    }
  }

  lemma StepKeepsRuns(s: State, a: Action)
    requires Valid(s)
    ensures var s' := Step(s, a);
      && (forall k :: k in s'.records ==> s'.records[k].id < s'.nextId)
      && (forall r :: r in s'.runs ==> RunOk(s', s'.runs[r]))
      && ClaimsDistinct(s')
  {
    StepKeepsClaims(s, a);
    forall r | r in Step(s, a).runs ensures RunOk(Step(s, a), Step(s, a).runs[r]) {
      StepKeepsRunOk(s, a, r);
    }
  }

  /** The only way a stored response appears is the completion write of the run that produced it. */
  lemma ResponsesComeFromCompletion(s: State, a: Action, k: Key)
    requires k in Step(s, a).records && Step(s, a).records[k].response.Some?
    ensures (k in s.records && s.records[k] == Step(s, a).records[k]) ||
      (a.Complete? && a.r in s.runs && s.runs[a.r].request.key == k && k in s.records
       && Holds(s.records, s.runs[a.r])
       && s.runs[a.r].produced == Step(s, a).records[k].response && s.records[k].requestHash == Step(s, a).records[k].requestHash
       && a.r in Step(s, a).runs && Step(s, a).runs[a.r].produced == s.runs[a.r].produced
       && Step(s, a).runs[a.r].request == s.runs[a.r].request
       && s.runs[a.r].phase.Completing?)
  {
  }

  lemma StepKeepsResponsesSourced(s: State, a: Action, k: Key)
    requires Valid(s) && k in Step(s, a).records && Step(s, a).records[k].response.Some?
    ensures Produced(Step(s, a), k, Step(s, a).records[k].requestHash, Step(s, a).records[k].response.value)
  {
    hide Step;
    ResponsesComeFromCompletion(s, a, k);
    if k in s.records && s.records[k] == Step(s, a).records[k] {
      StepKeepsProduced(s, a, k, s.records[k].requestHash, s.records[k].response.value);
    } else {
      assert RunOk(s, s.runs[a.r]);
    }
  }

  /** The only way a request is answered with a replay is by finding a stored response. */
  lemma ReplaysComeFromRecords(s: State, a: Action, r: nat)
    requires r in Step(s, a).runs && Step(s, a).runs[r].phase.Done? && Step(s, a).runs[r].phase.reply.Replayed?
    ensures r in s.runs && s.runs[r].request == Step(s, a).runs[r].request
    ensures var run := Step(s, a).runs[r];
      s.runs[r] == run ||
      (run.request.key in s.records && s.records[run.request.key].requestHash == run.request.requestHash
       && s.records[run.request.key].response == Some(run.phase.reply.body))
  {
  }

  lemma StepKeepsReplaysSourced(s: State, a: Action, r: nat)
    requires Valid(s) && r in Step(s, a).runs && Step(s, a).runs[r].phase.Done? && Step(s, a).runs[r].phase.reply.Replayed?
    ensures var run := Step(s, a).runs[r]; Produced(Step(s, a), run.request.key, run.request.requestHash, run.phase.reply.body)
  {
    hide Step;
    ReplaysComeFromRecords(s, a, r);
    var run := Step(s, a).runs[r];
    assert Produced(s, run.request.key, run.request.requestHash, run.phase.reply.body);
    StepKeepsProduced(s, a, run.request.key, run.request.requestHash, run.phase.reply.body);
  }

  lemma StepKeepsSourced(s: State, a: Action)
    requires Valid(s)
    ensures Sourced(Step(s, a))
  {
    hide Step;
    var s' := Step(s, a);
    forall k | k in s'.records && s'.records[k].response.Some?
      ensures Produced(s', k, s'.records[k].requestHash, s'.records[k].response.value)
    {
      StepKeepsResponsesSourced(s, a, k);
    }
    forall r | r in s'.runs && s'.runs[r].phase.Done? && s'.runs[r].phase.reply.Replayed?
      ensures Produced(s', s'.runs[r].request.key, s'.runs[r].request.requestHash, s'.runs[r].phase.reply.body)
    {
      StepKeepsReplaysSourced(s, a, r);
    }
  }

  lemma StepKeepsValid(s: State, a: Action)
    requires Valid(s)
    ensures Valid(Step(s, a))
  {
    StepKeepsRuns(s, a);
    StepKeepsSourced(s, a);
  }

  lemma {:induction false} RunAllKeepsValid(s: State, actions: seq<Action>)
    requires Valid(s)
    ensures Valid(RunAll(s, actions))
    decreases |actions|
  {
    if actions != [] {
      StepKeepsValid(s, actions[0]);
      RunAllKeepsValid(Step(s, actions[0]), actions[1..]);
    }
  }

  // ------------------------------------------------------------ theorems about every run

  predicate Busy(phase: Phase) { phase.Handling? || phase.Completing? || phase.Releasing? }

  /** Whatever the interleaving, two requests with one key are never both between claiming the
      key and giving it up, so at most one handler runs for it at a time. */
  lemma {:induction false} OneHandlerAtATime(actions: seq<Action>, r: nat, q: nat)
    requires var s := RunAll(EMPTY, actions);
      && r in s.runs && q in s.runs && s.runs[r].request.key == s.runs[q].request.key
      && Busy(s.runs[r].phase) && Busy(s.runs[q].phase)
    ensures r == q
  {
    RunAllKeepsValid(EMPTY, actions);
    var s := RunAll(EMPTY, actions);
    assert RunOk(s, s.runs[r]) && RunOk(s, s.runs[q]);
  }

  /** Nobody is handling a key whose record is completed. */
  lemma {:induction false} NoHandlerBesideCompleted(actions: seq<Action>, q: nat)
    requires var s := RunAll(EMPTY, actions);
      q in s.runs && s.runs[q].request.key in s.records && s.records[s.runs[q].request.key].response.Some?
    ensures !RunAll(EMPTY, actions).runs[q].phase.Handling?
  {
    RunAllKeepsValid(EMPTY, actions);
    var s := RunAll(EMPTY, actions);
    assert RunOk(s, s.runs[q]);
  }

  /** Every replay returns what the handler of a request with the same key and payload returned. */
  lemma {:induction false} ReplaysAreFaithful(actions: seq<Action>, q: nat)
    requires var s := RunAll(EMPTY, actions);
      q in s.runs && s.runs[q].phase.Done? && s.runs[q].phase.reply.Replayed?
    ensures var s := RunAll(EMPTY, actions);
      exists r :: r in s.runs && s.runs[r].request == s.runs[q].request && s.runs[r].produced == Some(s.runs[q].phase.reply.body)
  {
    RunAllKeepsValid(EMPTY, actions);
    var s := RunAll(EMPTY, actions);
    var run := s.runs[q];
    assert Produced(s, run.request.key, run.request.requestHash, run.phase.reply.body);
  }

  /** At most one request per key is ever told that its own handler's result stands. */
  lemma {:induction false} OneExecutedPerKey(actions: seq<Action>, r: nat, q: nat)
    requires var s := RunAll(EMPTY, actions);
      && r in s.runs && q in s.runs && s.runs[r].request.key == s.runs[q].request.key
      && s.runs[r].phase.Done? && s.runs[r].phase.reply.Executed?
      && s.runs[q].phase.Done? && s.runs[q].phase.reply.Executed?
    ensures r == q
  {
    RunAllKeepsValid(EMPTY, actions);
    var s := RunAll(EMPTY, actions);
    assert RunOk(s, s.runs[r]) && RunOk(s, s.runs[q]);
  }

  /** What a request that found the key completed may have become. */
  predicate AnsweredFrom(run: Run, record: Record) {
    || run.phase.Arrived?
    || run.phase == Done(AsReplay(record, run.request.requestHash))
    || run.phase == Done(Failed)
  }

  /** `record` is final: nobody handles its key, and everyone who had only arrived in `s` (or not
      even that) is answered from it. */
  ghost predicate Settled(s: State, t: State, key: Key, record: Record) {
    && key in t.records && t.records[key] == record
    && (forall q :: q in t.runs && t.runs[q].request.key == key ==> !t.runs[q].phase.Handling?)
    && (forall q :: q in t.runs && t.runs[q].request.key == key && (q in s.runs ==> s.runs[q].phase.Arrived?) ==>
          AnsweredFrom(t.runs[q], record))
  }

  predicate HasBusyRun(s: State, key: Key) {
    exists r :: r in s.runs && s.runs[r].request.key == key && Busy(s.runs[r].phase)
  }

  /** The record stands and nobody is left who could take it back. */
  predicate Locked(s: State, key: Key) { key in s.records && !HasBusyRun(s, key) }

  lemma StepKeepsLocked(s: State, a: Action, key: Key)
    requires Locked(s, key)
    ensures Locked(Step(s, a), key) && Step(s, a).records[key] == s.records[key]
  {
    var s' := Step(s, a);
    if HasBusyRun(s', key) {
      var r :| r in s'.runs && s'.runs[r].request.key == key && Busy(s'.runs[r].phase);
      BusyRunsStayOrCreate(s, a, r);
    }
  }

  /** A run becomes busy only by creating the record of a free key. */
  lemma BusyRunsStayOrCreate(s: State, a: Action, r: nat)
    requires r in Step(s, a).runs && Busy(Step(s, a).runs[r].phase)
    ensures r in s.runs && s.runs[r].request == Step(s, a).runs[r].request
    ensures Busy(s.runs[r].phase) || s.runs[r].request.key !in s.records
  {
  }

  lemma RunsStay(s: State, a: Action, q: nat)
    requires q in s.runs
    ensures q in Step(s, a).runs && Step(s, a).runs[q].request == s.runs[q].request
  {
  }

  lemma StepKeepsAnswered(t: State, a: Action, key: Key, record: Record, q: nat)
    requires Locked(t, key) && t.records[key] == record
    requires q in t.runs && t.runs[q].request.key == key && AnsweredFrom(t.runs[q], record)
    ensures AnsweredFrom(Step(t, a).runs[q], record)
  {
    if q == a.r && t.runs[q].phase.Arrived? && !a.Crash? && !a.Arrive? {
      assert a.Find? || !Enabled(t, a);
    }
  }

  lemma NewRunsHaveArrived(s: State, a: Action, q: nat)
    requires q in Step(s, a).runs
    ensures q in s.runs || Step(s, a).runs[q].phase.Arrived?
  {
  }

  lemma StepKeepsSettled(s: State, t: State, a: Action, key: Key, record: Record)
    requires Locked(t, key) && Settled(s, t, key, record)
    requires forall q :: q in s.runs ==> q in t.runs
    ensures Settled(s, Step(t, a), key, record)
  {
    hide Step, AnsweredFrom;
    StepKeepsLocked(t, a, key);
    var t' := Step(t, a);
    forall q | q in t'.runs && t'.runs[q].request.key == key && (q in s.runs ==> s.runs[q].phase.Arrived?)
      ensures AnsweredFrom(t'.runs[q], record)
    {
      NewRunsHaveArrived(t, a, q);
      if q in t.runs {
        RunsStay(t, a, q);
        StepKeepsAnswered(t, a, key, record, q);
      } else {
        ArrivedIsAnswered(t'.runs[q], record);
      }
    }
  }

  lemma ArrivedIsAnswered(run: Run, record: Record)
    requires run.phase.Arrived?
    ensures AnsweredFrom(run, record)
  {
  }

  lemma {:induction false} SettledForever(s: State, t: State, more: seq<Action>, key: Key, record: Record)
    requires Locked(t, key) && Settled(s, t, key, record)
    requires forall q :: q in s.runs ==> q in t.runs
    ensures Settled(s, RunAll(t, more), key, record) && Locked(RunAll(t, more), key)
    decreases |more|
  {
    hide Step, Settled, Locked;
    if more != [] {
      StepKeepsSettled(s, t, more[0], key, record);
      StepKeepsLocked(t, more[0], key);
      forall q | q in s.runs ensures q in Step(t, more[0]).runs { RunsStay(t, more[0], q); }
      SettledForever(s, Step(t, more[0]), more[1..], key, record);
    }
  }

  /** Once nobody can take a record back it is final: in every continuation it stays as it is, no
      handler runs for the key, and every later request is answered from it. */
  lemma {:induction false} LockedIsFinal(s: State, key: Key, more: seq<Action>)
    requires Locked(s, key)
    ensures Settled(s, RunAll(s, more), key, s.records[key]) && Locked(RunAll(s, more), key)
  {
    SettledForever(s, s, more, key, s.records[key]);
  }

  /** Once a request has been answered with its own handler's result, its record never changes or
      goes away, no handler runs for the key again, and every later request with the key is
      answered from that record: the stored response for the same payload, a conflict for another. */
  lemma {:induction false} CompletedIsFinal(actions: seq<Action>, r: nat, more: seq<Action>)
    requires var s := RunAll(EMPTY, actions);
      r in s.runs && s.runs[r].phase.Done? && s.runs[r].phase.reply.Executed?
    ensures var s := RunAll(EMPTY, actions);
      var request := s.runs[r].request;
      && request.key in s.records
      && s.records[request.key].requestHash == request.requestHash
      && s.records[request.key].response == Some(s.runs[r].phase.reply.body)
      && Settled(s, RunAll(s, more), request.key, s.records[request.key])
  {
    RunAllKeepsValid(EMPTY, actions);
    var s := RunAll(EMPTY, actions);
    OwnerIsAlone(s, r);
    LockedIsFinal(s, s.runs[r].request.key, more);
  }

  /** Whoever owns the record of a key is the only one busy with it. */
  lemma OwnerIsAlone(s: State, r: nat)
    requires Valid(s) && r in s.runs && Owner(s.runs[r])
    ensures Holds(s.records, s.runs[r]) && s.records[s.runs[r].request.key].requestHash == s.runs[r].request.requestHash
    ensures forall q :: q in s.runs && s.runs[q].request.key == s.runs[r].request.key && Busy(s.runs[q].phase) ==> q == r
  {
    assert RunOk(s, s.runs[r]);
    forall q | q in s.runs && s.runs[q].request.key == s.runs[r].request.key && Busy(s.runs[q].phase) ensures q == r {
      assert RunOk(s, s.runs[q]);
    }
  }

  /** The process that owns a record dies, or never learns that its record was created. */
  predicate Abandons(s: State, r: nat, a: Action) {
    && r in s.runs
    && ((a == Crash(r) && Busy(s.runs[r].phase))
        || (a == Create(r, AckLost) && s.runs[r].phase.Creating? && s.runs[r].request.key !in s.records))
  }

  /** Requests with the key that came after `s` are told of a conflict, or fail. */
  ghost predicate OnlyConflicts(s: State, t: State, key: Key) {
    forall q :: q in t.runs && q !in s.runs && t.runs[q].request.key == key && t.runs[q].phase.Done? ==>
      t.runs[q].phase.reply in {PayloadConflict, InFlightConflict, Failed}
  }

  /** Then the record is final as it stands. Without a response, every later request with the key is
      told of a conflict, for ever; with the response of a write whose acknowledgement was lost, it is
      replayed. */
  lemma {:induction false} AbandonedKeyIsLocked(actions: seq<Action>, r: nat, a: Action, more: seq<Action>)
    requires Abandons(RunAll(EMPTY, actions), r, a)
    ensures var s := RunAll(EMPTY, actions); var s' := Step(s, a); var key := s.runs[r].request.key;
      && key in s'.records
      && s'.records[key].response == (if key in s.records then s.records[key].response else None)
      && Settled(s', RunAll(s', more), key, s'.records[key])
      && (s'.records[key].response.None? ==> OnlyConflicts(s', RunAll(s', more), key))
  {
    RunAllKeepsValid(EMPTY, actions);
    var s := RunAll(EMPTY, actions);
    var s', key := Step(s, a), s.runs[r].request.key;
    hide RunAll;
    AbandonLocks(s, r, a);
    LockedIsFinal(s', key, more);
  }

  lemma AbandonLocks(s: State, r: nat, a: Action)
    requires Valid(s) && Abandons(s, r, a)
    ensures var s', key := Step(s, a), s.runs[r].request.key;
      Locked(s', key) && s'.records[key].response == if key in s.records then s.records[key].response else None
  {
    assert RunOk(s, s.runs[r]);
    var s', key := Step(s, a), s.runs[r].request.key;
    if Owner(s.runs[r]) { OwnerIsAlone(s, r); }
    forall q | q in s'.runs && s'.runs[q].request.key == key ensures !Busy(s'.runs[q].phase) {
      if q != r { assert RunOk(s, s.runs[q]); }
    }
  }

  // ------------------------------------------------------------ when a handler can run again

  /** Some continuation starts a handler for a new request with the key. */
  ghost predicate CanHandleAgain(s: State, key: Key) {
    exists more: seq<Action>, r: nat :: r !in s.runs && HandlesIn(RunAll(s, more), r, key)
  }

  predicate HandlesIn(t: State, r: nat, key: Key) {
    r in t.runs && t.runs[r].request.key == key && t.runs[r].phase.Handling?
  }

  lemma {:induction false} RunsOnlyGrow(s: State, more: seq<Action>, q: nat)
    requires q in s.runs
    ensures q in RunAll(s, more).runs
    decreases |more|
  {
    hide Step;
    if more != [] {
      RunsStay(s, more[0], q);
      RunsOnlyGrow(Step(s, more[0]), more[1..], q);
    }
  }

  /** A busy run can still give its key back. */
  lemma BusyRunCanRelease(s: State, r: nat) returns (more: seq<Action>)
    requires Valid(s) && r in s.runs && Busy(s.runs[r].phase)
    ensures s.runs[r].request.key !in RunAll(s, more).records
  {
    assert RunOk(s, s.runs[r]);
    var first := if s.runs[r].phase.Handling? then HandlerThrows(r) else Complete(r, Refused);
    more := [first, Release(r, Committed)];
    RunTwo(s, first, Release(r, Committed));
  }

  lemma RunTwo(s: State, a: Action, b: Action)
    ensures RunAll(s, [a, b]) == Step(Step(s, a), b)
  {
    hide Step;
    assert [a, b][1..] == [b] && [b][1..] == [];
    assert RunAll(Step(Step(s, a), b), []) == Step(Step(s, a), b);
    assert RunAll(Step(s, a), [b]) == RunAll(Step(Step(s, a), b), []);
  }

  lemma FreeKeyCanHandle(s: State, key: Key, r: nat)
    requires key !in s.records && r !in s.runs
    ensures HandlesIn(RunAll(s, [Arrive(r, Request(key, "")), Find(r), Create(r, Committed), Find(r)]), r, key)
  {
    RunFour(s, Arrive(r, Request(key, "")), Find(r), Create(r, Committed), Find(r));
  }

  /** A handler can run again for a key exactly when the key is free or someone is still busy with
      it. This is the whole of the protocol's promise: a handler whose result was not recorded may
      run again, one whose record nobody can take back never does. */
  lemma {:induction false} HandledAgainExactlyWhen(actions: seq<Action>, key: Key)
    ensures var s := RunAll(EMPTY, actions);
      CanHandleAgain(s, key) <==> key !in s.records || HasBusyRun(s, key)
  {
    RunAllKeepsValid(EMPTY, actions);
    var s := RunAll(EMPTY, actions);
    hide RunAll, Valid;
    if key !in s.records || HasBusyRun(s, key) {
      var more: seq<Action> := [];
      assert RunAll(s, []) == s by { RunNone(s); }
      if key in s.records {
        var r :| r in s.runs && s.runs[r].request.key == key && Busy(s.runs[r].phase);
        more := BusyRunCanRelease(s, r);
      }
      var free := RunAll(s, more);
      var q := UnusedNat(free.runs.Keys);
      if q in s.runs { RunsOnlyGrow(s, more, q); }
      FreeKeyCanHandle(free, key, q);
      var last := [Arrive(q, Request(key, "")), Find(q), Create(q, Committed), Find(q)];
      RunAllAppend(s, more, last);
      assert HandlesIn(RunAll(s, more + last), q, key);
    } else if CanHandleAgain(s, key) {
      var more: seq<Action>, r: nat :| r !in s.runs && HandlesIn(RunAll(s, more), r, key);
      LockedIsFinal(s, key, more);
    }
  }

  lemma RunNone(s: State)
    ensures RunAll(s, []) == s
  {
  }

  /** A failed request gives its key back: after the delete the next request may run the handler. */
  lemma {:induction false} ReleaseFreesTheKey(actions: seq<Action>, r: nat, write: Write)
    requires var s := RunAll(EMPTY, actions); r in s.runs && s.runs[r].phase.Releasing?
    ensures var s := RunAll(EMPTY, actions);
      var key := s.runs[r].request.key;
      (key in Step(s, Release(r, write)).records) <==> write.Refused?
  {
    RunAllKeepsValid(EMPTY, actions);
    var s := RunAll(EMPTY, actions);
    assert RunOk(s, s.runs[r]);
  }

  lemma {:induction false} RunAllAppend(s: State, first: seq<Action>, second: seq<Action>)
    ensures RunAll(s, first + second) == RunAll(RunAll(s, first), second)
    decreases |first|
  {
    if first == [] {
      assert first + second == second;
    } else {
      assert (first + second)[1..] == first[1..] + second;
      RunAllAppend(Step(s, first[0]), first[1..], second);
    }
  }

  lemma RunFour(s: State, a: Action, b: Action, c: Action, d: Action)
    ensures RunAll(s, [a, b, c, d]) == Step(Step(Step(Step(s, a), b), c), d)
  {
    hide Step;
    assert [a, b, c, d][1..] == [b, c, d] && [b, c, d][1..] == [c, d] && [c, d][1..] == [d];
    var s1 := Step(s, a);
    var s2 := Step(s1, b);
    var s3 := Step(s2, c);
    assert RunAll(Step(s3, d), []) == Step(s3, d);
    assert RunAll(s3, [d]) == RunAll(Step(s3, d), []);
    assert RunAll(s2, [c, d]) == RunAll(s3, [d]);
  }

  /** In every reachable state a duplicate is told so by its lookup, and by the lookup after losing a race. */
  lemma {:induction false} DuplicatesAreTold(actions: seq<Action>, r: nat)
    requires var s := RunAll(EMPTY, actions); r in s.runs && s.runs[r].request.key in s.records
    ensures var s := RunAll(EMPTY, actions); var request := s.runs[r].request;
      && (s.runs[r].phase.Arrived? ==>
            var after := Step(s, Find(r)).runs[r].phase; after.Done? && ToldAs(s.records[request.key], request.requestHash, after.reply))
      && (s.runs[r].phase.Raced? ==>
            var after := Step(s, FindRaced(r)).runs[r].phase; after.Done? && ToldAs(s.records[request.key], request.requestHash, after.reply))
  {
    hide RunAll;
  }

  /** While its key is free a new request runs its handler. */
  lemma {:induction false} FreeKeyRunsHandler(s: State, r: nat, request: Request, body: Body)
    requires r !in s.runs && request.key !in s.records
    ensures RunAll(s, [Arrive(r, request), Find(r), Create(r, Committed), HandlerReturns(r, body)]) ==
      State(s.records[request.key := Record(s.nextId, request.requestHash, None)], s.nextId + 1,
            s.runs[r := Run(request, Completing, Some(s.nextId), Some(body))])
  {
    RunFour(s, Arrive(r, request), Find(r), Create(r, Committed), HandlerReturns(r, body));
  }

  /** A handler can run twice for one key: if the completion write fails the key is released, and
      a retry of a request whose handler did return runs it again. */
  lemma {:induction false} RefusedCompletionRunsTwice(request: Request, body: Body) returns (actions: seq<Action>)
    ensures var s := RunAll(EMPTY, actions);
      && s.runs.Keys == {0, 1} && s.runs[0].request == s.runs[1].request == request
      && s.runs[0].produced == s.runs[1].produced == Some(body)
    ensures forall a :: a in actions && a.Complete? ==> a == Complete(0, Refused)
  {
    var first := [Arrive(0, request), Find(0), Create(0, Committed), HandlerReturns(0, body)];
    var release := [Complete(0, Refused), Release(0, Committed), Find(0), Find(0)];
    var second := [Arrive(1, request), Find(1), Create(1, Committed), HandlerReturns(1, body)];
    actions := first + release + second;
    FreeKeyRunsHandler(EMPTY, 0, request, body);
    var s := RunAll(EMPTY, first);
    RunFour(s, release[0], release[1], release[2], release[3]);
    var free := RunAll(s, release);
    assert free == State(map[], 1, map[0 := Run(request, Done(Failed), Some(0), Some(body))]);
    FreeKeyRunsHandler(free, 1, request, body);
    RunAllAppend(EMPTY, first, release);
    RunAllAppend(EMPTY, first + release, second);
  }

  // ------------------------------------------------------------ the interceptor

  /** The run was answered with the result of a handler that had the same key and payload. */
  ghost predicate ReplayOf(runs: map<nat, Run>, request: Request, body: Body) {
    exists q :: q in runs && runs[q].request == request && runs[q].produced == Some(body)
  }

  /** No run but this one is busy with its key. */
  predicate Alone(runs: map<nat, Run>, r: nat)
    requires r in runs
  {
    forall q :: q in runs && q != r && runs[q].request.key == runs[r].request.key ==> !Busy(runs[q].phase)
  }

  lemma Took(past: seq<Action>, s: State, a: Action)
    requires s == RunAll(EMPTY, past)
    ensures RunAll(EMPTY, past + [a]) == Step(s, a) && Valid(Step(s, a))
  {
    RunAllAppend(EMPTY, past, [a]);
    assert [a][1..] == [];
    assert RunAll(Step(s, a), []) == Step(s, a);
    assert EMPTY.runs == map[] && EMPTY.records == map[];
    RunAllKeepsValid(EMPTY, past);
    StepKeepsValid(s, a);
  }

  /** The same protocol on the table and on the requests in flight. A method is the code between two
      awaited calls of `intercept` and `claim`; `past` is every step so far, of all requests. */
  class Interceptor {
    var records: map<Key, Record>
    var nextId: nat
    var runs: map<nat, Run>
    ghost var past: seq<Action>

    ghost function Model(): State
      reads this
    {
      State(records, nextId, runs)
    }

    /** The fields are what the steps so far make of an empty table. */
    ghost predicate Consistent()
      reads this
    {
      Model() == RunAll(EMPTY, past)
    }

    constructor ()
      ensures Consistent() && past == []
    {
      records, nextId, runs, past := map[], 0, map[], [];
    }

    /** What holds of every run holds of the fields, however the methods were interleaved. */
    lemma {:induction false} InterceptorIsSafe()
      requires Consistent()
      ensures forall r :: r in runs && Busy(runs[r].phase) ==> Alone(runs, r)
      ensures forall r :: r in runs && runs[r].phase.Done? && runs[r].phase.reply.Replayed? ==>
        ReplayOf(runs, runs[r].request, runs[r].phase.reply.body)
      ensures forall r :: r in runs && runs[r].phase.Done? && runs[r].phase.reply.Executed? ==>
        Locked(Model(), runs[r].request.key) && records[runs[r].request.key].response == Some(runs[r].phase.reply.body)
    {
      RunAllKeepsValid(EMPTY, past);
      forall r | r in runs && Busy(runs[r].phase) ensures Alone(runs, r) { OwnerIsAlone(Model(), r); }
      forall r | r in runs && runs[r].phase.Done? && runs[r].phase.reply.Replayed?
        ensures ReplayOf(runs, runs[r].request, runs[r].phase.reply.body)
      {
        ReplaysAreFaithful(past, r);
      }
      forall r | r in runs && runs[r].phase.Done? && runs[r].phase.reply.Executed?
        ensures Locked(Model(), runs[r].request.key) && records[runs[r].request.key].response == Some(runs[r].phase.reply.body)
      {
        assert RunOk(Model(), runs[r]);
        OwnerIsAlone(Model(), r);
      }
    }

    method Arrive(r: nat, request: Request)
      requires Consistent() && r !in runs
      modifies this
      ensures Consistent() && past == old(past) + [Action.Arrive(r, request)]
    {
      hide RunAll;
      Took(past, Model(), Action.Arrive(r, request));
      runs := runs[r := Run(request, Arrived, None, None)];
      past := past + [Action.Arrive(r, request)];
    }

    /** `claim` looks the key up. A request that finds a completed record of its payload is answered
        with what the handler of such a request returned, and no record changes. */
    method FindExisting(r: nat)
      requires Consistent() && r in runs && runs[r].phase.Arrived?
      modifies this
      ensures Consistent() && past == old(past) + [Find(r)] && records == old(records)
      ensures r in runs && runs[r].request == old(runs)[r].request && (runs[r].phase.Creating? || runs[r].phase.Done?)
      ensures runs[r].phase.Creating? <==> runs[r].request.key !in records
      ensures runs[r].phase.Done? ==> ToldAs(records[runs[r].request.key], runs[r].request.requestHash, runs[r].phase.reply)
      ensures runs[r].phase.Done? && runs[r].phase.reply.Replayed? ==> ReplayOf(runs, runs[r].request, runs[r].phase.reply.body)
    {
      hide RunAll, Valid;
      Took(past, Model(), Find(r));
      var request := runs[r].request;
      if request.key in records {
        var reply := AsReplay(records[request.key], request.requestHash);
        runs := runs[r := runs[r].(phase := Done(reply))];
      } else {
        runs := runs[r := runs[r].(phase := Creating)];
      }
      past := past + [Find(r)];
      InterceptorIsSafe();
    }

    /** `claim` inserts its record. Of all the requests that found the key free only one goes on to its
        handler, and nobody else is busy with the key then; a loser changes no record. */
    method TryCreate(r: nat, write: Write)
      requires Consistent() && r in runs && runs[r].phase.Creating?
      modifies this
      ensures Consistent() && past == old(past) + [Create(r, write)]
      ensures r in runs && (runs[r].phase.Handling? <==> write.Committed? && runs[r].request.key !in old(records))
      ensures runs[r].phase.Handling? ==> Alone(runs, r)
      ensures runs[r].request.key in old(records) ==> records == old(records)
      ensures !write.Refused? ==> runs[r].request.key in records
      ensures write.Refused? ==> records == old(records) && runs[r].phase == Done(Failed)
      ensures runs[r].request == old(runs)[r].request && forall k :: k != runs[r].request.key ==> (k in records <==> k in old(records)) && (k in records ==> records[k] == old(records)[k])
      ensures !write.Refused? && runs[r].request.key !in old(records) ==>
        records[runs[r].request.key].requestHash == runs[r].request.requestHash && records[runs[r].request.key].response == None
      ensures !write.Refused? && runs[r].request.key in old(records) ==> runs[r].phase.Raced?
    {
      hide RunAll, Valid;
      Took(past, Model(), Create(r, write));
      var request := runs[r].request;
      if write.Refused? {
        runs := runs[r := runs[r].(phase := Done(Failed))];
      } else if request.key in records {
        runs := runs[r := runs[r].(phase := Raced)];
      } else {
        var id := nextId;
        nextId := nextId + 1;
        records := records[request.key := Record(id, request.requestHash, None)];
        if write.AckLost? {
          runs := runs[r := runs[r].(phase := Done(Failed))];
        } else {
          runs := runs[r := runs[r].(claimed := Some(id), phase := Handling)];
        }
      }
      past := past + [Create(r, write)];
      InterceptorIsSafe();
    }

    /** After a unique violation the loser is answered like any duplicate, and never runs its handler. */
    method FindWinner(r: nat)
      requires Consistent() && r in runs && runs[r].phase.Raced?
      modifies this
      ensures Consistent() && past == old(past) + [FindRaced(r)] && records == old(records)
      ensures r in runs && runs[r].phase.Done? && !runs[r].phase.reply.Executed?
      ensures runs[r].phase.reply.Replayed? ==> ReplayOf(runs, runs[r].request, runs[r].phase.reply.body)
      ensures runs[r].phase.reply.Failed? <==> runs[r].request.key !in records
      ensures runs[r].request.key in records ==> ToldAs(records[runs[r].request.key], runs[r].request.requestHash, runs[r].phase.reply)
    {
      hide RunAll, Valid;
      Took(past, Model(), FindRaced(r));
      var request := runs[r].request;
      var reply := Failed;
      if request.key in records {
        reply := AsReplay(records[request.key], request.requestHash);
      }
      runs := runs[r := runs[r].(phase := Done(reply))];
      past := past + [FindRaced(r)];
      InterceptorIsSafe();
    }

    /** The route handler settles. Its key is still its own and still has no response, so nobody can be
        answered before the completion is written. */
    method HandlerSettles(r: nat, result: Option<Body>)
      requires Consistent() && r in runs && runs[r].phase.Handling?
      modifies this
      ensures Consistent() && past == old(past) + [if result.Some? then HandlerReturns(r, result.value) else HandlerThrows(r)]
      ensures r in runs && runs[r].produced == (if result.Some? then result else old(runs)[r].produced)
      ensures if result.Some? then runs[r].phase.Completing? else runs[r].phase.Releasing?
      ensures records == old(records) && Holds(records, runs[r]) && Alone(runs, r)
      ensures result.Some? ==> records[runs[r].request.key].response.None?
    {
      ghost var a := if result.Some? then HandlerReturns(r, result.value) else HandlerThrows(r);
      RunAllKeepsValid(EMPTY, past);
      assert RunOk(Model(), runs[r]);
      hide RunAll, Valid;
      Took(past, Model(), a);
      if result.Some? {
        runs := runs[r := runs[r].(produced := result, phase := Completing)];
      } else {
        runs := runs[r := runs[r].(phase := Releasing)];
      }
      past := past + [a];
      InterceptorIsSafe();
    }

    /** The completion is written before the response is sent: whoever is answered with its handler's
        result leaves a record of it that no later step can change. Otherwise the key is still its own. */
    method WriteCompletion(r: nat, write: Write)
      requires Consistent() && r in runs && runs[r].phase.Completing?
      modifies this
      ensures Consistent() && past == old(past) + [Complete(r, write)]
      ensures r in runs && runs[r].request == old(runs)[r].request && runs[r].produced == old(runs)[r].produced
      ensures write.Committed? <==> runs[r].phase.Done?
      ensures write.Committed? ==> runs[r].produced.Some? && runs[r].phase.reply == Executed(runs[r].produced.value)
      ensures write.Committed? ==> Locked(Model(), runs[r].request.key) && records[runs[r].request.key].response == runs[r].produced
      ensures !write.Committed? ==> runs[r].phase.Releasing? && Holds(records, runs[r]) && Alone(runs, r)
    {
      RunAllKeepsValid(EMPTY, past);
      assert RunOk(Model(), runs[r]);
      hide RunAll, Valid;
      Took(past, Model(), Complete(r, write));
      var run := runs[r];
      var failed := write.Refused? || !Holds(records, run) || run.produced.None?;
      if !failed {
        records := records[run.request.key := records[run.request.key].(response := run.produced)];
        failed := write.AckLost?;
      }
      runs := runs[r := run.(phase := if failed then Releasing else Done(Executed(run.produced.value)))];
      past := past + [Complete(r, write)];
      InterceptorIsSafe();
    }

    /** The delete by id gives the key back, unless it fails itself, and takes no other record away. */
    method DeleteRecord(r: nat, write: Write)
      requires Consistent() && r in runs && runs[r].phase.Releasing?
      modifies this
      ensures Consistent() && past == old(past) + [Release(r, write)]
      ensures r in runs && runs[r].phase == Done(Failed)
      ensures runs[r].request.key in records <==> write.Refused?
      ensures forall k :: k != runs[r].request.key ==> (k in records <==> k in old(records)) && (k in records ==> records[k] == old(records)[k])
    {
      RunAllKeepsValid(EMPTY, past);
      assert RunOk(Model(), runs[r]);
      hide RunAll, Valid;
      Took(past, Model(), Release(r, write));
      var run := runs[r];
      if !write.Refused? && Holds(records, run) {
        records := records - {run.request.key};
      }
      runs := runs[r := run.(phase := Done(Failed))];
      past := past + [Release(r, write)];
    }
  }
}
