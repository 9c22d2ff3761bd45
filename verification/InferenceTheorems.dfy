/** What holds of the inference queue over whole runs, with a crash possible between any two file operations. */
module InferenceTheorems {
  import opened Common
  import opened InferenceStates

  ghost predicate Legal(q: Queue, acts: seq<Action>)
    decreases |acts|
  {
    acts == [] || (Enabled(q, acts[0]) && Legal(Step(q, acts[0]), acts[1..]))
  }

  ghost function Final(q: Queue, acts: seq<Action>): Queue
    requires Legal(q, acts)
    decreases |acts|
  {
    if acts == [] then q else Final(Step(q, acts[0]), acts[1..])
  }

  /** Some run of file operations leads from `q` to `v`. */
  ghost predicate Reaches(q: Queue, v: Queue) {
    exists acts :: Legal(q, acts) && Final(q, acts) == v
  }

  ghost predicate Reachable(q: Queue) {
    Reaches(EMPTY, q)
  }

  lemma ReachesSelf(q: Queue)
    ensures Reaches(q, q)
  {
    assert Legal(q, []) && Final(q, []) == q;
  }

  lemma ReachesStep(q: Queue, a: Action, v: Queue)
    requires Enabled(q, a) && Reaches(Step(q, a), v)
    ensures Reaches(q, v)
  {
    var acts :| Legal(Step(q, a), acts) && Final(Step(q, a), acts) == v;
    assert ([a] + acts)[1..] == acts;
    assert Legal(q, [a] + acts) && Final(q, [a] + acts) == v;
  }

  lemma {:induction false} RunThen(q: Queue, acts: seq<Action>, v: Queue)
    requires Legal(q, acts) && Reaches(Final(q, acts), v)
    ensures Reaches(q, v)
    decreases |acts|
  {
    if acts != [] {
      RunThen(Step(q, acts[0]), acts[1..], v);
      ReachesStep(q, acts[0], v);
    }
  }

  lemma ReachesTrans(q: Queue, m: Queue, v: Queue)
    requires Reaches(q, m) && Reaches(m, v)
    ensures Reaches(q, v)
  {
    var acts :| Legal(q, acts) && Final(q, acts) == m;
    RunThen(q, acts, v);
  }

  lemma {:induction false} RunKeeps(q: Queue, acts: seq<Action>)
    requires Inv(q) && Legal(q, acts)
    ensures Inv(Final(q, acts))
    decreases |acts|
  {
    if acts != [] {
      StepKeeps(q, acts[0]);
      RunKeeps(Step(q, acts[0]), acts[1..]);
    }
  }

  lemma ReachesKeeps(q: Queue, v: Queue)
    requires Inv(q) && Reaches(q, v)
    ensures Inv(v)
  {
    var acts :| Legal(q, acts) && Final(q, acts) == v;
    RunKeeps(q, acts);
  }

  lemma ReachableInv(q: Queue)
    requires Reachable(q)
    ensures Inv(q)
  {
    assert Inv(EMPTY);
    ReachesKeeps(EMPTY, q);
  }

  // ---- safety in every reachable queue ---------------------------------------------------------------

  function Only(q: Queue, id: string): nat {
    (if id in q.pending then 1 else 0) + (if id in q.processing then 1 else 0) + (if id in q.retry then 1 else 0)
    + (if id in q.done then 1 else 0) + (if id in q.quarantine then 1 else 0)
  }

  /** Between any two file operations a submitted request is in exactly one of the five directories, unchanged,
      and nothing else is there. */
  lemma ExactlyOnePlace(q: Queue, id: string)
    requires Reachable(q)
    ensures Only(q, id) == if id in q.submitted then 1 else 0
    ensures id in q.submitted ==> Find(q, id).Some? && Find(q, id).value.request == q.submitted[id]
    ensures q.worker.Busy? ==> q.worker.id in q.processing
  {
    ReachableInv(q);
    assert OkAt(q, id);
    if q.worker.Busy? {
      assert OkAt(q, q.worker.id);
    }
  }

  /** A request in `done` has its own result, of an attempt the result schema allows. */
  lemma DoneHasResult(q: Queue, id: string)
    requires Reachable(q) && id in q.done
    ensures id in q.results && q.results[id].requestId == id
    ensures 1 <= q.results[id].attempt <= MAX_RESULT_ATTEMPT && q.results[id].attempt == q.done[id].attempt
  {
    ReachableInv(q);
    assert OkAt(q, id);
  }

  /** Each claim uses an attempt; beyond `max_attempts` only as many as recovery sent the request back. */
  lemma AttemptsBounded(q: Queue, id: string)
    requires Reachable(q) && id in q.submitted
    ensures Find(q, id).Some?
    ensures Find(q, id).value.attempt <= q.submitted[id].maxAttempts + Count(q, id)
    ensures id in q.pending || id in q.retry ==> Find(q, id).value.attempt < q.submitted[id].maxAttempts + Count(q, id)
  {
    ReachableInv(q);
    assert OkAt(q, id);
  }

  /** Submission answers by the first request under the id alone, whatever has happened to it since; the
      `idempotency_state_incomplete` error cannot occur. */
  lemma SubmitAnswers(q: Queue, r: Request)
    requires Reachable(q) && ValidRequest(r)
    ensures Submitted(q, r).1 ==
            if IdOf(r) !in q.submitted then Success((IdOf(r), true))
            else if q.submitted[IdOf(r)] == r then Success((IdOf(r), false))
            else Failure(IdempotencyConflict)
    ensures IdOf(r) in q.submitted ==> Submitted(q, r).0 == q
  {
    ExactlyOnePlace(q, IdOf(r));
    ReachableInv(q);
    assert OkAt(q, IdOf(r));
  }

  // ---- what later operations cannot undo -------------------------------------------------------------

  lemma SubmittedStep(q: Queue, a: Action, id: string)
    requires OkAt(q, id) && Enabled(q, a) && id in q.submitted
    ensures id in Step(q, a).submitted && Step(q, a).submitted[id] == q.submitted[id]
  {
    if id != Target(q, a) {
      StepFrame(q, a, id);
      assert At(Step(q, a), id).submitted == At(q, id).submitted;
    }
  }

  /** Once accepted, a request stays what it was; submitting it again changes nothing and names the same id. */
  lemma {:induction false} SubmittedStays(q: Queue, acts: seq<Action>, id: string)
    requires Inv(q) && Legal(q, acts) && id in q.submitted
    ensures id in Final(q, acts).submitted && Final(q, acts).submitted[id] == q.submitted[id]
    decreases |acts|
  {
    if acts != [] {
      assert OkAt(q, id);
      SubmittedStep(q, acts[0], id);
      StepKeeps(q, acts[0]);
      SubmittedStays(Step(q, acts[0]), acts[1..], id);
    }
  }

  lemma SubmitOnce(q: Queue, r: Request, v: Queue)
    requires Reachable(q) && ValidRequest(r) && Submitted(q, r).1.Success? && Reaches(Submitted(q, r).0, v)
    ensures Submitted(v, r) == (v, Success((IdOf(r), false)))
  {
    var q1 := Submitted(q, r).0;
    SubmitAnswers(q, r);
    assert Enabled(q, Submit(r)) && Step(q, Submit(r)) == q1;
    ReachesStep(q, Submit(r), v);
    ReachesTrans(EMPTY, q, v);
    ReachableInv(q);
    StepKeeps(q, Submit(r));
    var acts :| Legal(q1, acts) && Final(q1, acts) == v;
    SubmittedStays(q1, acts, IdOf(r));
    SubmitAnswers(v, r);
  }

  lemma ResultStep(q: Queue, a: Action, id: string)
    requires OkAt(q, id) && Enabled(q, a) && id in q.results
    ensures At(Step(q, a), id).result == At(q, id).result
  {
    if id != Target(q, a) {
      StepFrame(q, a, id);
    }
  }

  /** Once a result is written it is never replaced, and the request is never claimed again. */
  lemma {:induction false} ResultIsFinal(q: Queue, acts: seq<Action>, id: string)
    requires Inv(q) && Legal(q, acts) && id in q.results
    ensures var v := Final(q, acts);
      && id in v.results && v.results[id] == q.results[id]
      && id !in v.pending && id !in v.retry && id !in v.quarantine
      && Find(v, id).Some? && Find(v, id).value.attempt == q.results[id].attempt
    decreases |acts|
  {
    assert OkAt(q, id);
    if acts != [] {
      ResultStep(q, acts[0], id);
      StepKeeps(q, acts[0]);
      assert Lookup(Step(q, acts[0]).results, id) == Some(q.results[id]);
      ResultIsFinal(Step(q, acts[0]), acts[1..], id);
    }
  }

  // ---- which requests can still finish ---------------------------------------------------------------

  /** Out of attempts that a result may carry, or given up. */
  predicate Lost(s: Slot, phase: Option<Phase>)
    requires Places(s) == 1
  {
    s.result.None? &&
    (s.quarantine.Some? || Held(s).value.attempt > MAX_RESULT_ATTEMPT
     || (Held(s).value.attempt == MAX_RESULT_ATTEMPT && phase != Some(Working)))
  }

  predicate LostAt(q: Queue, id: string)
    requires OkAt(q, id) && id in q.submitted
  {
    Lost(At(q, id), PhaseAt(q.worker, id))
  }

  lemma LostStep(q: Queue, a: Action, id: string)
    requires OkAt(q, id) && Enabled(q, a) && id in q.submitted && LostAt(q, id)
    ensures OkAt(Step(q, a), id) && id in Step(q, a).submitted && LostAt(Step(q, a), id)
  {
    SubmittedStep(q, a, id);
    if id == Target(q, a) {
      TargetKeeps(q, a, id);
    } else {
      StepFrame(q, a, id);
      WorkerFrame(q, a, id);
      OkWithoutWorker(id, At(q, id), PhaseAt(q.worker, id));
    }
  }

  lemma {:induction false} LostForever(q: Queue, acts: seq<Action>, id: string)
    requires OkAt(q, id) && Legal(q, acts) && id in q.submitted && LostAt(q, id)
    ensures id !in Final(q, acts).done
    decreases |acts|
  {
    if acts != [] {
      LostStep(q, acts[0], id);
      LostForever(Step(q, acts[0]), acts[1..], id);
    }
  }

  ghost predicate CanFinish(q: Queue, id: string) {
    exists v :: Reaches(q, v) && id in v.done
  }

  lemma StepFinishes(q: Queue, a: Action, id: string)
    requires Enabled(q, a) && CanFinish(Step(q, a), id)
    ensures CanFinish(q, id)
  {
    var v :| Reaches(Step(q, a), v) && id in v.done;
    ReachesStep(q, a, v);
  }

  lemma DoneFinishes(q: Queue, id: string)
    requires id in q.done
    ensures CanFinish(q, id)
  {
    ReachesSelf(q);
  }

  lemma WorkingFinishes(q: Queue, id: string)
    requires q.worker == Busy(id, Working) && id in q.processing && q.processing[id].attempt <= MAX_RESULT_ATTEMPT
    ensures CanFinish(q, id)
  {
    var q1 := Step(q, WriteResult(id, ""));
    var q2 := Step(q1, MoveDone(id));
    DoneFinishes(q2, id);
    StepFinishes(q1, MoveDone(id), id);
    StepFinishes(q, WriteResult(id, ""), id);
  }

  lemma MovedFinishes(q: Queue, id: string)
    requires q.worker == Busy(id, Moved) && id in q.processing && q.processing[id].attempt < MAX_RESULT_ATTEMPT
    ensures CanFinish(q, id)
  {
    WorkingFinishes(Step(q, ClaimWrite(id)), id);
    StepFinishes(q, ClaimWrite(id), id);
  }

  lemma RetryFinishes(q: Queue, id: string)
    requires q.worker == Resting && id in q.retry && q.retry[id].attempt < MAX_RESULT_ATTEMPT
    ensures CanFinish(q, id)
  {
    var a := ClaimRetry(id, q.retry[id].nextAttemptAt);
    MovedFinishes(Step(q, a), id);
    StepFinishes(q, a, id);
  }

  lemma PendingFinishes(q: Queue, id: string)
    requires q.worker == Resting && id in q.pending && q.pending[id].attempt < MAX_RESULT_ATTEMPT
    ensures CanFinish(q, id)
  {
    MovedFinishes(Step(q, ClaimPending(id)), id);
    StepFinishes(q, ClaimPending(id), id);
  }

  lemma StaleFinishes(q: Queue, id: string)
    requires q.worker == Resting && id in q.processing && id !in q.results && q.processing[id].attempt < MAX_RESULT_ATTEMPT
    ensures CanFinish(q, id)
  {
    var q1 := Step(q, RecoverWrite(id, 0.0));
    assert q1.worker == Busy(id, StaleWritten) && id in q1.processing;
    assert q1.processing[id].attempt == q.processing[id].attempt;
    var q2 := Step(q1, RecoverMove(id));
    RetryFinishes(q2, id);
    StepFinishes(q1, RecoverMove(id), id);
    StepFinishes(q, RecoverWrite(id, 0.0), id);
  }

  lemma RestingFinishes(q: Queue, id: string)
    requires OkAt(q, id) && id in q.submitted && q.worker == Resting && !LostAt(q, id)
    ensures CanFinish(q, id)
  {
    if id in q.done {
      DoneFinishes(q, id);
    } else if id in q.results {
      assert Enabled(q, RecoverDone(id));
      DoneFinishes(Step(q, RecoverDone(id)), id);
      StepFinishes(q, RecoverDone(id), id);
    } else if id in q.processing {
      StaleFinishes(q, id);
    } else if id in q.retry {
      RetryFinishes(q, id);
    } else {
      PendingFinishes(q, id);
    }
  }

  /** A submitted request can still reach `done` exactly while it is not lost: it is not quarantined, and either
      its result is written or a claim with an attempt of at most five is still to come or at work. */
  lemma FinishesExactly(q: Queue, id: string)
    requires Reachable(q) && id in q.submitted
    ensures OkAt(q, id)
    ensures CanFinish(q, id) <==> !LostAt(q, id)
  {
    ReachableInv(q);
    assert OkAt(q, id);
    if LostAt(q, id) {
      forall v | Reaches(q, v)
        ensures id !in v.done
      {
        var acts :| Legal(q, acts) && Final(q, acts) == v;
        LostForever(q, acts, id);
      }
    } else if q.worker == Busy(id, Working) && id !in q.results {
      WorkingFinishes(q, id);
    } else {
      CrashKeeps(q, id);
      RestingFinishes(Step(q, Crash), id);
      StepFinishes(q, Crash, id);
    }
  }

  /** Five recoveries of a request allowed one attempt can wear it out: it is then claimed and worked on without
      end, and its results are refused. */
  lemma RecoveriesWearOut(r: Request)
    requires ValidRequest(r)
    ensures exists q :: Reachable(q) && IdOf(r) in q.submitted && OkAt(q, IdOf(r)) && LostAt(q, IdOf(r)) && IdOf(r) in q.retry
  {
    var id := IdOf(r);
    var q := Step(EMPTY, Submit(r));
    assert OkAt(EMPTY, id);
    SubmitKeeps(EMPTY, r, id);
    ReachesSelf(q);
    ReachesStep(EMPTY, Submit(r), q);
    var q1 := Step(q, ClaimPending(id));
    ClaimKeeps(q, ClaimPending(id), id);
    ExtendRun(q, ClaimPending(id));
    q := ClaimCrashedAndRecovered(q1, id, 0);
    while q.retry[id].attempt < MAX_RESULT_ATTEMPT
      invariant Reachable(q) && OkAt(q, id) && q.worker == Resting && id in q.retry && id in q.submitted && id !in q.results
      decreases MAX_RESULT_ATTEMPT - q.retry[id].attempt
    {
      var a := ClaimRetry(id, q.retry[id].nextAttemptAt);
      ClaimKeeps(q, a, id);
      ExtendRun(q, a);
      q := ClaimCrashedAndRecovered(Step(q, a), id, q.retry[id].attempt);
    }
  }

  lemma ExtendRun(q: Queue, a: Action)
    requires Reachable(q) && Enabled(q, a)
    ensures Reachable(Step(q, a))
  {
    ReachesSelf(Step(q, a));
    ReachesStep(q, a, Step(q, a));
    ReachesTrans(EMPTY, q, Step(q, a));
  }

  /** A claim that crashes and is recovered: one attempt is gone. */
  lemma ClaimCrashedAndRecovered(q: Queue, id: string, n: nat) returns (v: Queue)
    requires Reachable(q) && OkAt(q, id) && q.worker == Busy(id, Moved) && id in q.submitted && q.processing[id].attempt == n
    ensures Reachable(v) && OkAt(v, id) && v.worker == Resting && id in v.retry && id in v.submitted && id !in v.results
    ensures v.retry[id].attempt == n + 1
  {
    var q1 := Step(q, ClaimWrite(id));
    ExtendRun(q, ClaimWrite(id));
    ClaimKeeps(q, ClaimWrite(id), id);
    v := CrashedAndRecovered(q1, id);
  }

  lemma CrashedAndRecovered(q: Queue, id: string) returns (v: Queue)
    requires Reachable(q) && OkAt(q, id) && q.worker == Busy(id, Working) && id in q.submitted && id !in q.results
    ensures Reachable(v) && OkAt(v, id) && v.worker == Resting && id in v.retry && id in v.submitted && id !in v.results
    ensures id in q.processing && v.retry[id].attempt == q.processing[id].attempt
  {
    var q2 := Step(q, Crash);
    ExtendRun(q, Crash);
    CrashKeeps(q, id);
    var q3 := Step(q2, RecoverWrite(id, 0.0));
    ExtendRun(q2, RecoverWrite(id, 0.0));
    RecoverKeeps(q2, RecoverWrite(id, 0.0), id);
    v := Step(q3, RecoverMove(id));
    ExtendRun(q3, RecoverMove(id));
    RecoverKeeps(q3, RecoverMove(id), id);
  }
}
