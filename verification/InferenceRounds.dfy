/** Which requests can still finish when the worker takes files in the order it does: whole rounds, recoveries and
    deaths instead of single file operations. */
module InferenceRounds {
  import opened Common
  import opened InferenceStates
  import opened InferenceTheorems
  import opened InferenceWorker
  import opened Sorting

  /** What happens between two states in which the worker holds no file; `Finish` is the end of the round at hand. */
  datatype Move =
    | Finish(output: string)
    | Die
    | Recovery(stale: set<string>, now: real)
    | Round(id: string, now: real, outcome: Outcome)

  ghost predicate Possible(q: Queue, m: Move) {
    match m
    case Finish(_) =>
      && q.worker.Busy? && q.worker.phase.Working? && q.worker.id in q.processing
      && q.processing[q.worker.id].attempt <= MAX_RESULT_ATTEMPT
    case Die => true
    case Recovery(stale, _) => q.worker == Resting && stale <= q.processing.Keys
    case Round(id, now, _) => q.worker == Resting && Chosen(q, id, now)
  }

  ghost function Moved(q: Queue, m: Move): Queue
    requires Possible(q, m)
  {
    match m
    case Finish(output) => AfterComplete(q, q.worker.id, output)
    case Die => Step(q, Crash)
    case Recovery(stale, now) => Recovered(q, stale, now)
    case Round(id, now, outcome) => AfterRound(q, id, now, _ => outcome)
  }

  ghost predicate PossibleInTurn(q: Queue, moves: seq<Move>)
    decreases |moves|
  {
    moves == [] || (Possible(q, moves[0]) && PossibleInTurn(Moved(q, moves[0]), moves[1..]))
  }

  ghost function MovedInTurn(q: Queue, moves: seq<Move>): Queue
    requires PossibleInTurn(q, moves)
    decreases |moves|
  {
    if moves == [] then q else MovedInTurn(Moved(q, moves[0]), moves[1..])
  }

  ghost predicate FinishesInOrder(q: Queue, id: string) {
    exists moves :: PossibleInTurn(q, moves) && id in MovedInTurn(q, moves).done
  }

  // ---- moves are runs --------------------------------------------------------------------------------

  lemma MoveIsRun(q: Queue, m: Move)
    requires Inv(q) && Possible(q, m)
    ensures Reaches(q, Moved(q, m)) && Inv(Moved(q, m))
  {
    match m
    case Finish(output) => CompleteIsRun(q, q.worker.id, output);
    case Die => OneStep(q, Crash, Step(q, Crash));
    case Recovery(stale, now) => RecoveryIsRun(q, stale, now);
    case Round(id, now, outcome) => RoundIsRun(q, id, now, _ => outcome);
  }

  lemma {:induction false} MovesAreRun(q: Queue, moves: seq<Move>)
    requires Inv(q) && PossibleInTurn(q, moves)
    ensures Reaches(q, MovedInTurn(q, moves))
    decreases |moves|
  {
    if moves == [] {
      ReachesSelf(q);
    } else {
      MoveIsRun(q, moves[0]);
      MovesAreRun(Moved(q, moves[0]), moves[1..]);
      ReachesTrans(q, Moved(q, moves[0]), MovedInTurn(q, moves));
    }
  }

  // ---- clearing the way ------------------------------------------------------------------------------

  lemma MoveFinishes(q: Queue, m: Move, id: string)
    requires Possible(q, m) && FinishesInOrder(Moved(q, m), id)
    ensures FinishesInOrder(q, id)
  {
    var moves :| PossibleInTurn(Moved(q, m), moves) && id in MovedInTurn(Moved(q, m), moves).done;
    assert ([m] + moves)[1..] == moves;
    assert PossibleInTurn(q, [m] + moves) && MovedInTurn(q, [m] + moves) == MovedInTurn(Moved(q, m), moves);
  }

  lemma DoneInOrder(q: Queue, id: string)
    requires id in q.done
    ensures FinishesInOrder(q, id)
  {
    assert PossibleInTurn(q, []) && MovedInTurn(q, []) == q;
  }

  /** The file that the next claim takes. */
  lemma NextChosen(q: Queue, now: real) returns (id: string)
    requires q.pending != map[] || exists x :: Due(q, x, now)
    ensures Chosen(q, id, now)
  {
    var due := set x | x in q.retry && q.retry[x].nextAttemptAt <= now;
    assert forall x :: x in due <==> Due(q, x, now);
    if due != {} {
      id := Least(due);
    } else {
      assert q.pending.Keys != {};
      id := Least(q.pending.Keys);
    }
  }

  /** A file that waits and may still be claimed for an attempt whose result is accepted. */
  ghost predicate Waits(q: Queue, id: string, now: real) {
    && q.worker == Resting
    && if id in q.retry then Due(q, id, now) && q.retry[id].attempt < MAX_RESULT_ATTEMPT
       else id in q.pending && q.pending[id].attempt < MAX_RESULT_ATTEMPT
  }

  const FAULT := Reason("gone")

  lemma FaultQuarantines(c: Queue, x: string, now: real)
    requires x in c.processing
    ensures AfterFail(c, x, FAULT, false, now) ==
            c.(quarantine := c.quarantine[x := Failed(c.processing[x], FAULT, false, now)], processing := c.processing - {x},
               worker := Resting)
  {
  }

  /** A claim takes the file from where it waits, and leaves the other waiting files. */
  lemma ClaimTakes(q: Queue, x: string, now: real)
    requires Due(q, x, now) || x in q.pending
    ensures var c := AfterClaim(q, x, now);
      && x in c.processing
      && (if Due(q, x, now) then c.retry == q.retry - {x} && c.pending == q.pending
          else c.pending == q.pending - {x} && c.retry == q.retry)
  {
  }

  /** A round on another file whose model call fails for good: that file is in the way no longer. */
  lemma ClearedAway(q: Queue, x: string, now: real, id: string)
    requires Chosen(q, x, now) && q.worker == Resting && x != id && Waits(q, id, now)
    ensures var v := Moved(q, Round(x, now, Raised(FAULT, false)));
      Waits(v, id, now) && |v.pending| + |v.retry| < |q.pending| + |q.retry|
  {
    var c := AfterClaim(q, x, now);
    ClaimTakes(q, x, now);
    FaultQuarantines(c, x, now);
    var v := AfterFail(c, x, FAULT, false, now);
    assert Moved(q, Round(x, now, Raised(FAULT, false))) == v;
    if Due(q, x, now) {
      OneLess(q.retry, x);
    } else {
      OneLess(q.pending, x);
    }
    StillWaits(q, v, x, id, now);
  }

  lemma StillWaits(q: Queue, v: Queue, x: string, id: string, now: real)
    requires Waits(q, id, now) && x != id && v.worker == Resting
    requires (v.retry == q.retry - {x} && v.pending == q.pending) || (v.pending == q.pending - {x} && v.retry == q.retry)
    ensures Waits(v, id, now)
  {
  }

  lemma OneLess(m: map<string, Envelope>, x: string)
    requires x in m
    ensures |m - {x}| == |m| - 1
  {
    assert (m - {x}).Keys == m.Keys - {x};
    assert |(m - {x}).Keys| == |m - {x}| && |m.Keys| == |m|;
  }

  lemma TurnFinishes(q: Queue, id: string, now: real)
    requires Waits(q, id, now) && Chosen(q, id, now)
    ensures id in Moved(q, Round(id, now, Output(""))).done
  {
    var c := AfterClaim(q, id, now);
    ClaimCounts(q, id, now);
    assert Moved(q, Round(id, now, Output(""))) == AfterOutcome(c, id, now, Output(""));
    assert AfterOutcome(c, id, now, Output("")) == AfterComplete(c, id, "");
  }

  lemma ClaimCounts(q: Queue, id: string, now: real)
    requires Waits(q, id, now)
    ensures Due(q, id, now) || id in q.pending
    ensures id in AfterClaim(q, id, now).processing && AfterClaim(q, id, now).processing[id].attempt <= MAX_RESULT_ATTEMPT
  {
    if id in q.retry {
      CountedOnce(q.processing, id, q.retry[id]);
    } else {
      CountedOnce(q.processing, id, q.pending[id]);
    }
  }

  lemma CountedOnce(m: map<string, Envelope>, id: string, e: Envelope)
    requires e.attempt < MAX_RESULT_ATTEMPT
    ensures m[id := Claimed(e)][id].attempt <= MAX_RESULT_ATTEMPT
  {
  }

  /** Round after round, until it is the file's turn. */
  lemma {:induction false} WaitingFinishes(q: Queue, id: string, now: real)
    requires Inv(q) && Waits(q, id, now)
    ensures FinishesInOrder(q, id)
    decreases |q.pending| + |q.retry|
  {
    var x := NextChosen(q, now);
    if x == id {
      TurnFinishes(q, id, now);
      DoneInOrder(Moved(q, Round(id, now, Output(""))), id);
      MoveFinishes(q, Round(id, now, Output("")), id);
    } else {
      var m := Round(x, now, Raised(FAULT, false));
      ClearedAway(q, x, now, id);
      MoveIsRun(q, m);
      WaitingFinishes(Moved(q, m), id, now);
      MoveFinishes(q, m, id);
    }
  }

  lemma StaleInOrder(q: Queue, id: string)
    requires Inv(q) && OkAt(q, id) && id in q.submitted && q.worker == Resting && !LostAt(q, id) && id in q.processing
    ensures FinishesInOrder(q, id)
  {
    var m := Recovery({id}, 0.0);
    var v := Moved(q, m);
    RecoveredExactly(q, {id}, 0.0, id);
    MoveIsRun(q, m);
    assert At(v, id) == StaleSlot(At(q, id), 0.0);
    if id in q.results {
      DoneInOrder(v, id);
    } else {
      assert At(v, id).retry.Some? && v.retry[id] == Stale(q.processing[id], 0.0);
      WaitingFinishes(v, id, 0.0);
    }
    MoveFinishes(q, m, id);
  }

  lemma RestingInOrder(q: Queue, id: string)
    requires Inv(q) && OkAt(q, id) && id in q.submitted && q.worker == Resting && !LostAt(q, id)
    ensures FinishesInOrder(q, id)
  {
    if id in q.done {
      DoneInOrder(q, id);
    } else if id in q.processing {
      StaleInOrder(q, id);
    } else if id in q.retry {
      WaitingFinishes(q, id, q.retry[id].nextAttemptAt);
    } else {
      WaitingFinishes(q, id, 0.0);
    }
  }

  /** In whatever order the worker must take the files, a request that is not lost can still be finished, and by whole
      rounds: those before it can be cleared away. So the exact condition is the same. */
  lemma FinishesInOrderExactly(q: Queue, id: string)
    requires Reachable(q) && id in q.submitted
    ensures OkAt(q, id)
    ensures FinishesInOrder(q, id) <==> !LostAt(q, id)
  {
    ReachableInv(q);
    assert OkAt(q, id);
    FinishesExactly(q, id);
    if LostAt(q, id) {
      forall moves | PossibleInTurn(q, moves)
        ensures id !in MovedInTurn(q, moves).done
      {
        MovesAreRun(q, moves);
      }
    } else if q.worker == Busy(id, Working) && id !in q.results {
      DoneInOrder(Moved(q, Finish("")), id);
      MoveFinishes(q, Finish(""), id);
    } else {
      CrashKeeps(q, id);
      MoveIsRun(q, Die);
      RestingInOrder(Step(q, Crash), id);
      MoveFinishes(q, Die, id);
    }
  }
}
