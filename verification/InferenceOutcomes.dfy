/** What becomes of a request, in terms of its file alone: where each call leaves it, with which fields. */
module InferenceOutcomes {
  import opened Common
  import opened InferenceStates
  import opened InferenceTheorems
  import opened InferenceWorker
  import opened Sorting

  // ---- the backoff -----------------------------------------------------------------------------------

  /** One second after the first attempt, twice as long after each further one, and never more than a minute. */
  lemma DelayDoubles(attempt: nat)
    ensures Delay(0) == 1 && Delay(1) == 1
    ensures attempt >= 1 ==> Delay(attempt + 1) == if 2 * Delay(attempt) < 60 then 2 * Delay(attempt) else 60
    ensures 1 <= Delay(attempt) <= 60
  {
    PowerPositive(attempt);
    if attempt >= 1 { PowerPositive(attempt - 1); }
  }

  lemma {:induction false} PowerPositive(n: nat)
    ensures Power2(n) >= 1
  {
    if n > 0 { PowerPositive(n - 1); }
  }

  // ---- one call --------------------------------------------------------------------------------------

  /** A submission is refused by its schema exactly if a field is out of bounds. */
  lemma RefusedExactly(q: Queue, r: Request)
    requires Reachable(q)
    ensures Submitted(q, r).1 == Failure(SchemaInvalid) <==>
            !(3 <= |r.requestType| <= 96 && (forall c :: c in r.requestType ==> TypeChar(c)) && 1 <= |r.model| <= 128
              && 8 <= |r.key| <= 240 && 1 <= r.maxAttempts <= 5 && 5 <= r.timeoutSeconds <= 300)
    ensures Submitted(q, r).1.Failure? ==> Submitted(q, r).0 == q
  {
  }

  /** A new request waits in `pending`, not attempted yet, and everything else is as it was. */
  lemma CreatedExactly(q: Queue, r: Request, x: string)
    requires Reachable(q) && Submitted(q, r).1 == Success((IdOf(r), true))
    ensures var v := Submitted(q, r).0;
      && v.worker == q.worker && IdOf(r) !in q.submitted
      && At(v, x) == if x != IdOf(r) then At(q, x) else Slot(Some(Envelope(r, 0, 0.0, None)), None, None, None, None, None, Some(r), 0)
  {
    ReachableInv(q);
    assert OkAt(q, IdOf(r));
    if x != IdOf(r) {
      CreateFrame(q, r, IdOf(r), x);
    }
  }

  /** Which file a claim takes: the first by name of the retries whose time has come, the moment itself included; without any,
      the first pending one. */
  lemma ChosenExactly(q: Queue, id: string, now: real)
    ensures Chosen(q, id, now) <==>
      || (id in q.retry && q.retry[id].nextAttemptAt <= now
          && forall x :: x in q.retry && q.retry[x].nextAttemptAt <= now ==> StringLe(id, x))
      || (id in q.pending && (forall x :: x in q.retry ==> now < q.retry[x].nextAttemptAt)
          && forall x :: x in q.pending ==> StringLe(id, x))
  {
    assert forall x :: Due(q, x, now) <==> x in q.retry && q.retry[x].nextAttemptAt <= now;
  }

  /** The slot of a request that lies in `retry` or `pending`, taken to be worked on. */
  predicate IsTaken(s: Slot, t: Slot) {
    && t.processing.Some? && t == s.(pending := None, retry := None, processing := t.processing)
    && (s.retry.Some? || s.pending.Some?)
    && var e := if s.retry.Some? then s.retry.value else s.pending.value;
       t.processing.value == Envelope(e.request, e.attempt + 1, 0.0, e.lastReason)
  }

  lemma ClaimExactly(q: Queue, id: string, now: real, x: string)
    requires Inv(q) && q.worker == Resting && (Due(q, id, now) || id in q.pending)
    ensures var v := AfterClaim(q, id, now);
      v.worker == Busy(id, Working) && if x == id then IsTaken(At(q, x), At(v, x)) else At(v, x) == At(q, x)
  {
    assert OkAt(q, id);
    if Due(q, id, now) {
      RetryTaken(q, id, x);
    } else {
      PendingTaken(q, id, x);
    }
  }

  lemma RetryTaken(q: Queue, id: string, x: string)
    requires id in q.retry && OkAt(q, id) && q.worker == Resting
    ensures var v := q.(retry := q.retry - {id}, processing := q.processing[id := Claimed(q.retry[id])], worker := Busy(id, Working));
      if x == id then IsTaken(At(q, x), At(v, x)) else At(v, x) == At(q, x)
  {
  }

  lemma PendingTaken(q: Queue, id: string, x: string)
    requires id in q.pending && OkAt(q, id) && q.worker == Resting
    ensures var v := q.(pending := q.pending - {id}, processing := q.processing[id := Claimed(q.pending[id])], worker := Busy(id, Working));
      if x == id then IsTaken(At(q, x), At(v, x)) else At(v, x) == At(q, x)
  {
  }

  /** The slot of a request in `processing` after its model call came to `outcome`: done with its result, or again in `retry`
      with its backoff while attempts are left and the fault may pass, or else in `quarantine`. An attempt that the
      result schema does not know leaves it where it is. */
  predicate IsSettled(id: string, s: Slot, now: real, outcome: Outcome, t: Slot)
    requires s.processing.Some?
  {
    var e := s.processing.value;
    match outcome
    case Output(text) =>
      if e.attempt <= 5 then
        t == s.(processing := None, done := Some(e), result := Some(ResultFile(id, e.attempt, text)))
      else t == s
    case Raised(reason, retryable) =>
      if retryable && e.attempt < e.request.maxAttempts then
        t == s.(processing := None, retry := Some(Envelope(e.request, e.attempt, now + Delay(e.attempt) as real, Some(reason))))
      else
        t == s.(processing := None, quarantine := Some(Envelope(e.request, e.attempt, e.nextAttemptAt, Some(reason))))
  }

  lemma CompletedAt(c: Queue, id: string, text: string, now: real, x: string)
    requires id in c.processing && c.processing[id].attempt <= MAX_RESULT_ATTEMPT
    ensures var v := AfterComplete(c, id, text);
      v.worker == Resting && if x == id then IsSettled(id, At(c, x), now, Output(text), At(v, x)) else At(v, x) == At(c, x)
  {
  }

  lemma FailedAt(c: Queue, id: string, reason: Reason, retryable: bool, now: real, x: string)
    requires id in c.processing
    ensures var v := AfterFail(c, id, reason, retryable, now);
      v.worker == Resting && if x == id then IsSettled(id, At(c, x), now, Raised(reason, retryable), At(v, x)) else At(v, x) == At(c, x)
  {
    if retryable && c.processing[id].attempt < c.processing[id].request.maxAttempts {
      RetriedAt(c, id, reason, now, x);
    } else {
      QuarantinedAt(c, id, reason, retryable, now, x);
    }
  }

  lemma RetriedAt(c: Queue, id: string, reason: Reason, now: real, x: string)
    requires id in c.processing && c.processing[id].attempt < c.processing[id].request.maxAttempts
    ensures var v := AfterFail(c, id, reason, true, now);
      v.worker == Resting && if x == id then IsSettled(id, At(c, x), now, Raised(reason, true), At(v, x)) else At(v, x) == At(c, x)
  {
  }

  lemma QuarantinedAt(c: Queue, id: string, reason: Reason, retryable: bool, now: real, x: string)
    requires id in c.processing && !(retryable && c.processing[id].attempt < c.processing[id].request.maxAttempts)
    ensures var v := AfterFail(c, id, reason, retryable, now);
      v.worker == Resting && if x == id then IsSettled(id, At(c, x), now, Raised(reason, retryable), At(v, x)) else At(v, x) == At(c, x)
  {
  }

  lemma OutcomeAt(c: Queue, id: string, now: real, outcome: Outcome, x: string)
    requires id in c.processing
    ensures var v := AfterOutcome(c, id, now, outcome);
      v.worker == Resting && if x == id then IsSettled(id, At(c, x), now, outcome, At(v, x)) else At(v, x) == At(c, x)
  {
    match outcome
    case Output(text) => if c.processing[id].attempt <= MAX_RESULT_ATTEMPT { CompletedAt(c, id, text, now, x); }
    case Raised(reason, retryable) => FailedAt(c, id, reason, retryable, now, x);
  }

  /** A round takes one file, counts the attempt and settles it by what the model call came to; all others stay. */
  lemma RoundExactly(q: Queue, id: string, now: real, generate: Request -> Outcome, x: string) returns (taken: Slot)
    requires Inv(q) && q.worker == Resting && (Due(q, id, now) || id in q.pending)
    ensures IsTaken(At(q, id), taken)
    ensures var v := AfterRound(q, id, now, generate);
      && v.worker == Resting
      && if x == id then IsSettled(id, taken, now, generate(taken.processing.value.request), At(v, x)) else At(v, x) == At(q, x)
  {
    var c := AfterClaim(q, id, now);
    ClaimExactly(q, id, now, id);
    ClaimExactly(q, id, now, x);
    taken := At(c, id);
    OutcomeAt(c, id, now, generate(c.processing[id].request), x);
  }

  /** A stale file without a result is due at once, its attempts as they were. */
  lemma StaleExactly(q: Queue, ids: set<string>, now: real, id: string)
    requires ids <= q.processing.Keys && id in ids
    ensures var e, v := q.processing[id], At(Recovered(q, ids, now), id);
      && v.processing.None?
      && if id in q.results then v.done == Some(e) && v.result == Some(q.results[id]) && v.recovered == Count(q, id)
         else v.retry == Some(Envelope(e.request, e.attempt, now, Some(StaleProcessingRecovered))) && v.recovered == Count(q, id) + 1
  {
    RecoveredExactly(q, ids, now, id);
  }

  // ---- whole runs ------------------------------------------------------------------------------------

  /** Some attempt at the request failed for good. */
  predicate FailedForGood(acts: seq<Action>, id: string) {
    exists i :: 0 <= i < |acts| && acts[i].FailWrite? && acts[i].id == id && !acts[i].retryable
  }

  predicate Wrote(acts: seq<Action>, id: string, output: string) {
    exists i :: 0 <= i < |acts| && acts[i] == WriteResult(id, output)
  }

  /** What `acts` must have done for the request to stand as it does. */
  predicate Explained(q: Queue, acts: seq<Action>, id: string) {
    && (id in q.quarantine && !FailedForGood(acts, id) ==> q.quarantine[id].attempt >= q.quarantine[id].request.maxAttempts)
    && (q.worker == Busy(id, FailWritten(false)) && id in q.processing && !FailedForGood(acts, id) ==>
          q.processing[id].attempt >= q.processing[id].request.maxAttempts)
    && (id in q.results ==> Wrote(acts, id, q.results[id].output))
  }

  lemma ExplainedMore(q: Queue, acts: seq<Action>, a: Action, id: string)
    requires Explained(q, acts, id)
    ensures Explained(q, acts + [a], id)
  {
    if FailedForGood(acts, id) {
      var i :| 0 <= i < |acts| && acts[i].FailWrite? && acts[i].id == id && !acts[i].retryable;
      assert (acts + [a])[i] == acts[i];
    }
    if id in q.results {
      var i :| 0 <= i < |acts| && acts[i] == WriteResult(id, q.results[id].output);
      assert (acts + [a])[i] == acts[i];
    }
  }

  lemma ExplainedStep(q: Queue, acts: seq<Action>, a: Action, id: string)
    requires Explained(q, acts, id) && Enabled(q, a) && OkAt(q, id)
    ensures Explained(Step(q, a), acts + [a], id)
  {
    ExplainedMore(q, acts, a, id);
    assert (acts + [a])[|acts|] == a;
    if id != Target(q, a) {
      StepFrame(q, a, id);
      WorkerFrame(q, a, id);
      SameExplained(q, Step(q, a), acts + [a], id);
    } else if a.Submit? {
    } else if a.FailWrite? || a.FailQuarantine? {
    } else if a.WriteResult? {
    } else {
    }
  }

  lemma SameExplained(q: Queue, v: Queue, acts: seq<Action>, id: string)
    requires Explained(q, acts, id) && At(v, id) == At(q, id)
    requires PhaseAt(v.worker, id).None? || PhaseAt(v.worker, id) == PhaseAt(q.worker, id)
    ensures Explained(v, acts, id)
  {
    assert Lookup(v.quarantine, id) == Lookup(q.quarantine, id) && Lookup(v.processing, id) == Lookup(q.processing, id);
    assert Lookup(v.results, id) == Lookup(q.results, id);
  }

  lemma {:induction false} RunExplained(q: Queue, acts: seq<Action>, more: seq<Action>, id: string)
    requires Inv(q) && Explained(q, acts, id) && Legal(q, more)
    ensures Explained(Final(q, more), acts + more, id)
    decreases |more|
  {
    if more == [] {
      assert acts + more == acts;
    } else {
      assert OkAt(q, id);
      ExplainedStep(q, acts, more[0], id);
      StepKeeps(q, more[0]);
      RunExplained(Step(q, more[0]), acts + [more[0]], more[1..], id);
      assert acts + [more[0]] + more[1..] == acts + more;
    }
  }

  /** In every run: a request whose failed attempts could all be retried is in quarantine only once it has used up the
      attempts it asked for. */
  lemma QuarantinedOnlySpent(acts: seq<Action>, id: string)
    requires Legal(EMPTY, acts) && id in Final(EMPTY, acts).quarantine && !FailedForGood(acts, id)
    ensures var e := Final(EMPTY, acts).quarantine[id]; e.attempt >= e.request.maxAttempts
  {
    RunExplained(EMPTY, [], acts, id);
    assert [] + acts == acts;
  }

  /** A result holds what the model call of this request gave. */
  lemma ResultWasGiven(acts: seq<Action>, id: string)
    requires Legal(EMPTY, acts) && id in Final(EMPTY, acts).results
    ensures Wrote(acts, id, Final(EMPTY, acts).results[id].output)
  {
    RunExplained(EMPTY, [], acts, id);
    assert [] + acts == acts;
  }
}
