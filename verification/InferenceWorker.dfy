/** The queue object and the worker that drives it. Every method is a run of the file operations of
    `InferenceStates`, so all that holds in every reachable queue holds before and after every call. */
module InferenceWorker {
  import opened Common
  import opened InferenceStates
  import opened InferenceTheorems
  import opened Sorting

  /** What a model call comes to: an output, or an `InferenceRuntimeError`. */
  datatype Outcome = Output(text: string) | Raised(reason: Reason, retryable: bool)

  datatype Verdict = Retry | Quarantined

  predicate Due(q: Queue, id: string, now: real) {
    id in q.retry && q.retry[id].nextAttemptAt <= now
  }

  /** The file `claim_next` takes: the first due retry by name, else the first pending one. */
  ghost predicate Chosen(q: Queue, id: string, now: real) {
    if Due(q, id, now) then forall x :: Due(q, x, now) ==> StringLe(id, x)
    else id in q.pending && (forall x :: !Due(q, x, now)) && forall x :: x in q.pending ==> StringLe(id, x)
  }

  /** After a claim: the file is in `processing` with one attempt more. */
  function AfterClaim(q: Queue, id: string, now: real): Queue
    requires Due(q, id, now) || id in q.pending
  {
    if Due(q, id, now) then
      q.(retry := q.retry - {id}, processing := q.processing[id := Claimed(q.retry[id])], worker := Busy(id, Working))
    else
      q.(pending := q.pending - {id}, processing := q.processing[id := Claimed(q.pending[id])], worker := Busy(id, Working))
  }

  function AfterComplete(q: Queue, id: string, output: string): Queue
    requires id in q.processing
  {
    q.(results := q.results[id := ResultFile(id, q.processing[id].attempt, output)],
       done := q.done[id := q.processing[id]], processing := q.processing - {id}, worker := Resting)
  }

  function AfterFail(q: Queue, id: string, reason: Reason, retryable: bool, now: real): Queue
    requires id in q.processing
  {
    var e := Failed(q.processing[id], reason, retryable, now);
    if Retries(q.processing[id], retryable) then
      q.(retry := q.retry[id := e], processing := q.processing - {id}, worker := Resting)
    else
      q.(quarantine := q.quarantine[id := e], processing := q.processing - {id}, worker := Resting)
  }

  function AfterStale(q: Queue, id: string, now: real): Queue
    requires id in q.processing
  {
    if id in q.results then q.(done := q.done[id := q.processing[id]], processing := q.processing - {id})
    else
      q.(retry := q.retry[id := Stale(q.processing[id], now)], processing := q.processing - {id},
         recovered := q.recovered[id := 1 + Count(q, id)])
  }

  // ---- each of them is a run of file operations ------------------------------------------------------

  lemma TwoSteps(q: Queue, a: Action, b: Action, v: Queue)
    requires Inv(q) && Enabled(q, a) && Enabled(Step(q, a), b) && Step(Step(q, a), b) == v
    ensures Reaches(q, v) && Inv(v)
  {
    ReachesSelf(v);
    ReachesStep(Step(q, a), b, v);
    ReachesStep(q, a, v);
    ReachesKeeps(q, v);
  }

  lemma OneStep(q: Queue, a: Action, v: Queue)
    requires Inv(q) && Enabled(q, a) && Step(q, a) == v
    ensures Reaches(q, v) && Inv(v)
  {
    ReachesSelf(v);
    ReachesStep(q, a, v);
    ReachesKeeps(q, v);
  }

  lemma ClaimIsRun(q: Queue, id: string, now: real)
    requires Inv(q) && q.worker == Resting && (Due(q, id, now) || id in q.pending)
    ensures Reaches(q, AfterClaim(q, id, now)) && Inv(AfterClaim(q, id, now))
  {
    if Due(q, id, now) {
      TwoSteps(q, ClaimRetry(id, now), ClaimWrite(id), AfterClaim(q, id, now));
    } else {
      TwoSteps(q, ClaimPending(id), ClaimWrite(id), AfterClaim(q, id, now));
    }
  }

  lemma CompleteIsRun(q: Queue, id: string, output: string)
    requires Inv(q) && q.worker == Busy(id, Working) && id in q.processing && q.processing[id].attempt <= MAX_RESULT_ATTEMPT
    ensures Reaches(q, AfterComplete(q, id, output)) && Inv(AfterComplete(q, id, output))
  {
    TwoSteps(q, WriteResult(id, output), MoveDone(id), AfterComplete(q, id, output));
  }

  lemma FailIsRun(q: Queue, id: string, reason: Reason, retryable: bool, now: real)
    requires Inv(q) && q.worker == Busy(id, Working) && id in q.processing
    ensures Reaches(q, AfterFail(q, id, reason, retryable, now)) && Inv(AfterFail(q, id, reason, retryable, now))
  {
    var v := AfterFail(q, id, reason, retryable, now);
    var a := FailWrite(id, reason, retryable, now);
    assert (q.processing[id := Failed(q.processing[id], reason, retryable, now)]) - {id} == q.processing - {id};
    if Retries(q.processing[id], retryable) {
      TwoSteps(q, a, FailRetry(id), v);
    } else {
      TwoSteps(q, a, FailQuarantine(id), v);
    }
  }

  lemma StaleIsRun(q: Queue, id: string, now: real)
    requires Inv(q) && q.worker == Resting && id in q.processing
    ensures Reaches(q, AfterStale(q, id, now)) && Inv(AfterStale(q, id, now))
  {
    assert OkAt(q, id);
    if id in q.results {
      OneStep(q, RecoverDone(id), AfterStale(q, id, now));
    } else {
      assert (q.processing[id := Stale(q.processing[id], now)]) - {id} == q.processing - {id};
      TwoSteps(q, RecoverWrite(id, now), RecoverMove(id), AfterStale(q, id, now));
    }
  }

  /** No result file carries another request's id. */
  ghost predicate OwnResults(q: Queue) {
    forall id :: id in q.results ==> q.results[id].requestId == id
  }

  lemma InvOwnResults(q: Queue)
    requires Inv(q)
    ensures OwnResults(q)
  {
    forall id | id in q.results
      ensures q.results[id].requestId == id
    {
      assert OkAt(q, id);
    }
  }

  // ---- recovery of many files ------------------------------------------------------------------------

  /** The queue after recovery of the stale files `ids`, one after the other by name. */
  ghost function Recovered(q: Queue, ids: set<string>, now: real): Queue
    requires ids <= q.processing.Keys
    decreases ids
  {
    if ids == {} then q
    else
      var id := Least(ids);
      Recovered(AfterStale(q, id, now), ids - {id}, now)
  }

  function StaleSlot(s: Slot, now: real): Slot
    requires s.processing.Some?
  {
    if s.result.Some? then s.(processing := None, done := s.processing)
    else s.(processing := None, retry := Some(Stale(s.processing.value, now)), recovered := 1 + s.recovered)
  }

  lemma AfterStaleFrame(q: Queue, id: string, now: real)
    requires id in q.processing
    ensures AfterStale(q, id, now).worker == q.worker && AfterStale(q, id, now).results == q.results
    ensures AfterStale(q, id, now).processing.Keys == q.processing.Keys - {id}
  {
  }

  lemma AfterDoneAt(q: Queue, id: string, x: string)
    requires id in q.processing && id in q.results
    ensures var v := q.(done := q.done[id := q.processing[id]], processing := q.processing - {id});
      At(v, x) == if x == id then StaleSlot(At(q, x), 0.0) else At(q, x)
  {
  }

  lemma AfterRetryAt(q: Queue, id: string, now: real, x: string)
    requires id in q.processing && id !in q.results
    ensures var v := q.(retry := q.retry[id := Stale(q.processing[id], now)], processing := q.processing - {id},
                        recovered := q.recovered[id := 1 + Count(q, id)]);
      At(v, x) == if x == id then StaleSlot(At(q, x), now) else At(q, x)
  {
  }

  lemma AfterStaleAt(q: Queue, id: string, now: real, x: string)
    requires id in q.processing
    ensures At(AfterStale(q, id, now), x) == if x == id then StaleSlot(At(q, x), now) else At(q, x)
  {
    if id in q.results { AfterDoneAt(q, id, x); } else { AfterRetryAt(q, id, now, x); }
  }

  /** A stale file goes to `done` if its result is there and to `retry` if not; every other request stays as it
      is. */
  lemma {:induction false} RecoveredExactly(q: Queue, ids: set<string>, now: real, x: string)
    requires ids <= q.processing.Keys
    ensures At(Recovered(q, ids, now), x) == if x in ids then StaleSlot(At(q, x), now) else At(q, x)
    ensures Recovered(q, ids, now).worker == q.worker
    decreases ids
  {
    if ids != {} {
      var id := Least(ids);
      AfterStaleAt(q, id, now, x);
      AfterStaleFrame(q, id, now);
      RecoveredExactly(AfterStale(q, id, now), ids - {id}, now, x);
    }
  }

  /** Recovering any set of stale files is a run of single file operations. */
  lemma {:induction false} RecoveryIsRun(q: Queue, ids: set<string>, now: real)
    requires Inv(q) && q.worker == Resting && ids <= q.processing.Keys
    ensures Reaches(q, Recovered(q, ids, now)) && Inv(Recovered(q, ids, now))
    decreases ids
  {
    if ids == {} {
      ReachesSelf(q);
    } else {
      var id := Least(ids);
      var u := AfterStale(q, id, now);
      StaleIsRun(q, id, now);
      AfterStaleFrame(q, id, now);
      RecoveryIsRun(u, ids - {id}, now);
      ReachesTrans(q, u, Recovered(q, ids, now));
    }
  }

  class InferenceQueue {
    var pending: map<string, Envelope>
    var processing: map<string, Envelope>
    var retry: map<string, Envelope>
    var done: map<string, Envelope>
    var quarantine: map<string, Envelope>
    var results: map<string, ResultFile>
    ghost var worker: Worker
    ghost var submitted: map<string, Request>
    ghost var recovered: map<string, nat>

    ghost function State(): Queue
      reads this
    {
      Queue(pending, processing, retry, done, quarantine, results, worker, submitted, recovered)
    }

    constructor ()
      ensures State() == EMPTY
    {
      pending, processing, retry, done, quarantine, results := map[], map[], map[], map[], map[], map[];
      worker, submitted, recovered := Resting, map[], map[];
    }

    method Submit(r: Request) returns (answer: Result<(string, bool), QueueError>)
      modifies this
      ensures (State(), answer) == Submitted(old(State()), r)
    {
      if !ValidRequest(r) {
        return Failure(SchemaInvalid);
      }
      var id := IdOf(r);
      var directories := [pending, processing, retry, done, quarantine];
      var i := 0;
      while i < |directories| && id !in directories[i]
        invariant 0 <= i <= |directories|
        invariant forall j :: 0 <= j < i ==> id !in directories[j]
      {
        i := i + 1;
      }
      if i < |directories| {
        assert i == 0 || i == 1 || i == 2 || i == 3 || i == 4;
        assert i > 0 ==> id !in directories[0];
        assert i > 1 ==> id !in directories[1];
        assert i > 2 ==> id !in directories[2];
        assert i > 3 ==> id !in directories[3];
        assert Find(State(), id) == Some(directories[i][id]);
        return if directories[i][id].request != r then Failure(IdempotencyConflict) else Success((id, false));
      }
      assert id !in directories[0] && id !in directories[1] && id !in directories[2] && id !in directories[3] && id !in directories[4];
      if id in results {
        return Failure(IdempotencyStateIncomplete);
      }
      pending := pending[id := Envelope(r, 0, 0.0, None)];
      submitted, recovered := submitted[id := r], recovered[id := 0];
      answer := Success((id, true));
    }

    /** The file to take next, if there is one. */
    method Choose(now: real) returns (choice: Option<string>)
      ensures choice.None? ==> pending == map[] && forall id :: !Due(State(), id, now)
      ensures choice.Some? ==> Chosen(State(), choice.value, now)
    {
      var due := set id | id in retry && retry[id].nextAttemptAt <= now;
      assert forall id :: id in due <==> Due(State(), id, now);
      if due != {} {
        var id := LeastName(due);
        return Some(id);
      }
      if pending == map[] {
        return None;
      }
      assert pending.Keys != {} by {
        var x :| x in pending;
        assert x in pending.Keys;
      }
      var id := LeastName(pending.Keys);
      choice := Some(id);
    }

    /** Takes the first due retry, or else the first pending request, and counts the attempt. */
    method ClaimNext(now: real) returns (claimed: Option<Envelope>)
      requires Inv(State()) && worker == Resting
      modifies this
      ensures claimed.None? ==> State() == old(State()) && pending == map[] && forall id :: !Due(State(), id, now)
      ensures claimed.Some? ==>
        var id := IdOf(claimed.value.request);
        && Chosen(old(State()), id, now)
        && State() == AfterClaim(old(State()), id, now)
        && claimed.value == processing[id]
    {
      var choice := Choose(now);
      if choice.None? {
        return None;
      }
      var id := choice.value;
      KeptUnderOwnId(State(), id);
      if id in retry && retry[id].nextAttemptAt <= now {
        processing, retry := processing[id := Claimed(retry[id])], retry - {id};
      } else {
        processing, pending := processing[id := Claimed(pending[id])], pending - {id};
      }
      worker := Busy(id, Working);
      claimed := Some(processing[id]);
    }

    /** Writes the result and moves the request to `done`, unless the result schema refuses the attempt. */
    method Complete(e: Envelope, output: string) returns (answer: Result<(), QueueError>)
      requires worker == Busy(IdOf(e.request), Working)
      requires IdOf(e.request) in processing && processing[IdOf(e.request)] == e
      modifies this
      ensures answer == if e.attempt <= MAX_RESULT_ATTEMPT then Success(()) else Failure(SchemaInvalid)
      ensures answer.Failure? ==> State() == old(State())
      ensures answer.Success? ==> State() == AfterComplete(old(State()), IdOf(e.request), output)
    {
      var id := IdOf(e.request);
      if e.attempt > MAX_RESULT_ATTEMPT {
        return Failure(SchemaInvalid);
      }
      results := results[id := ResultFile(id, e.attempt, output)];
      done, processing := done[id := processing[id]], processing - {id};
      worker := Resting;
      answer := Success(());
    }

    /** Back to `retry` with the delay doubled, or to `quarantine` once the budget is used or the fault is final. */
    method Fail(e: Envelope, reason: Reason, retryable: bool, now: real) returns (verdict: Verdict)
      requires worker == Busy(IdOf(e.request), Working)
      requires IdOf(e.request) in processing && processing[IdOf(e.request)] == e
      modifies this
      ensures State() == AfterFail(old(State()), IdOf(e.request), reason, retryable, now)
      ensures verdict == if retryable && e.attempt < e.request.maxAttempts then Retry else Quarantined
    {
      var id := IdOf(e.request);
      var rewritten := Failed(e, reason, retryable, now);
      worker := Resting;
      if Retries(e, retryable) {
        retry, processing := retry[id := rewritten], processing - {id};
        return Retry;
      }
      quarantine, processing := quarantine[id := rewritten], processing - {id};
      verdict := Quarantined;
    }

    method RecoverOne(id: string, now: real)
      requires id in processing && (id in results ==> results[id].requestId == id)
      modifies this
      ensures State() == AfterStale(old(State()), id, now)
    {
      if id in results && results[id].requestId == id {
        done, processing := done[id := processing[id]], processing - {id};
      } else {
        results := results - {id};
        assert results == old(results);
        recovered := recovered[id := 1 + Count(State(), id)];
        retry, processing := retry[id := Stale(processing[id], now)], processing - {id};
      }
    }

    /** Every file that has been in `processing` for too long goes to `done` if its result is there, and to
        `retry` if not; nothing else moves. */
    method RecoverStaleProcessing(staleAfter: real, now: real, modified: string -> real) returns (count: nat)
      requires Inv(State()) && worker == Resting
      modifies this
      ensures var stale := set id | id in old(processing) && now - modified(id) >= staleAfter;
        State() == Recovered(old(State()), stale, now) && count == |stale|
      ensures Inv(State()) && Reaches(old(State()), State())
    {
      ghost var q := State();
      var stale := set id | id in processing && now - modified(id) >= staleAfter;
      RecoveryIsRun(q, stale, now);
      InvOwnResults(q);
      count := RecoverAll(stale, now);
    }

    method RecoverAll(stale: set<string>, now: real) returns (count: nat)
      requires stale <= processing.Keys && OwnResults(State())
      modifies this
      ensures State() == Recovered(old(State()), stale, now) && count == |stale|
    {
      ghost var goal := Recovered(State(), stale, now);
      var todo := stale;
      count := 0;
      while todo != {}
        invariant todo <= processing.Keys && OwnResults(State()) && count + |todo| == |stale|
        invariant Recovered(State(), todo, now) == goal
        decreases todo
      {
        var id := LeastName(todo);
        OnlyLeast(todo, id);
        AfterStaleFrame(State(), id, now);
        RecoverOne(id, now);
        todo, count := todo - {id}, count + 1;
      }
    }

    /** Runs the model on the claimed request and files the outcome. */
    method Settle(e: Envelope, now: real, generate: Request -> Outcome)
      requires worker == Busy(IdOf(e.request), Working)
      requires IdOf(e.request) in processing && processing[IdOf(e.request)] == e
      modifies this
      ensures State() == AfterOutcome(old(State()), IdOf(e.request), now, generate(e.request))
    {
      var outcome := generate(e.request);
      if outcome.Output? {
        var answer := Complete(e, outcome.text);
        if answer.Failure? {
          worker := Resting;
        }
      } else {
        var _ := Fail(e, outcome.reason, outcome.retryable, now);
      }
    }

    /** One round of the worker. An attempt past the result schema leaves the request in `processing`, because
        the error that says so is not one the worker handles. */
    method ProcessOne(now: real, generate: Request -> Outcome) returns (busy: bool)
      requires Inv(State()) && worker == Resting
      modifies this
      ensures Inv(State()) && Reaches(old(State()), State())
      ensures !busy ==> State() == old(State()) && pending == map[] && forall id :: !Due(State(), id, now)
      ensures busy ==> exists id :: Chosen(old(State()), id, now) && State() == AfterRound(old(State()), id, now, generate)
    {
      ghost var q := State();
      var claimed := ClaimNext(now);
      if claimed.None? {
        ReachesSelf(q);
        return false;
      }
      ghost var id := IdOf(claimed.value.request);
      ghost var v := SettledRound(q, id, now, generate, claimed.value);
      Settle(claimed.value, now, generate);
      assert State() == v;
      busy := true;
    }
  }

  /** A request in `pending` or `retry` is filed under its own id. */
  lemma KeptUnderOwnId(q: Queue, id: string)
    requires Inv(q)
    ensures id in q.pending ==> IdOf(q.pending[id].request) == id
    ensures id in q.retry ==> IdOf(q.retry[id].request) == id
  {
    assert OkAt(q, id);
  }

  function AfterOutcome(c: Queue, id: string, now: real, outcome: Outcome): Queue
    requires id in c.processing
  {
    match outcome
    case Output(text) =>
      if c.processing[id].attempt <= MAX_RESULT_ATTEMPT then AfterComplete(c, id, text) else c.(worker := Resting)
    case Raised(reason, retryable) => AfterFail(c, id, reason, retryable, now)
  }

  /** The queue after one round on request `id`. */
  function AfterRound(q: Queue, id: string, now: real, generate: Request -> Outcome): Queue
    requires Due(q, id, now) || id in q.pending
  {
    var c := AfterClaim(q, id, now);
    AfterOutcome(c, id, now, generate(c.processing[id].request))
  }

  lemma OutcomeIsRun(c: Queue, id: string, now: real, outcome: Outcome)
    requires Inv(c) && c.worker == Busy(id, Working) && id in c.processing
    ensures Reaches(c, AfterOutcome(c, id, now, outcome)) && Inv(AfterOutcome(c, id, now, outcome))
  {
    if outcome.Raised? {
      FailIsRun(c, id, outcome.reason, outcome.retryable, now);
    } else if c.processing[id].attempt <= MAX_RESULT_ATTEMPT {
      CompleteIsRun(c, id, outcome.text);
    } else {
      OneStep(c, Crash, c.(worker := Resting));
    }
  }

  lemma RoundIsRun(q: Queue, id: string, now: real, generate: Request -> Outcome)
    requires Inv(q) && q.worker == Resting && (Due(q, id, now) || id in q.pending)
    ensures Reaches(q, AfterRound(q, id, now, generate)) && Inv(AfterRound(q, id, now, generate))
  {
    ClaimIsRun(q, id, now);
    var c := AfterClaim(q, id, now);
    OutcomeIsRun(c, id, now, generate(c.processing[id].request));
    ReachesTrans(q, c, AfterRound(q, id, now, generate));
  }

  lemma SettledRound(q: Queue, id: string, now: real, generate: Request -> Outcome, e: Envelope) returns (v: Queue)
    requires Inv(q) && q.worker == Resting && Chosen(q, id, now) && e == AfterClaim(q, id, now).processing[id]
    ensures v == AfterRound(q, id, now, generate)
    ensures v == AfterOutcome(AfterClaim(q, id, now), id, now, generate(e.request))
    ensures Reaches(q, v) && Inv(v) && AfterClaim(q, id, now).worker == Busy(id, Working)
  {
    v := AfterRound(q, id, now, generate);
    RoundIsRun(q, id, now, generate);
  }
}
