/** The store object: its two tables and the calls that rewrite them, proved against the transactions of
    `ControlRecovery`. */
module ControlRecoveryStore {
  import opened Common
  import opened ControlRecovery

  /** A whole call of `run_recovery` that does not crash. */
  function Recovery(s: Store, plan: Plan, now: int, script: Script): (Store, Receipt) {
    var (s1, progress) := Begin(s, plan, now);
    match progress
    case Answered(receipt) => (s1, receipt)
    case Started(flight) => Finish(s1, flight, Executed(flight.plan, script))
  }

  lemma {:induction false} FirstUntriedAt(attempts: seq<LessonAttempt>, responses: seq<Response>, i: nat)
    requires i < |responses| && !FailedBefore(attempts, responses[i])
    requires forall j :: 0 <= j < i ==> FailedBefore(attempts, responses[j])
    ensures FirstUntried(attempts, responses) == Some(responses[i])
  {
    if i > 0 {
      FirstUntriedAt(attempts, responses[1..], i - 1);
    }
  }

  lemma {:induction false} NoneUntried(attempts: seq<LessonAttempt>, responses: seq<Response>)
    requires forall j :: 0 <= j < |responses| ==> FailedBefore(attempts, responses[j])
    ensures FirstUntried(attempts, responses) == None
  {
    if responses != [] {
      NoneUntried(attempts, responses[1..]);
    }
  }

  /** Running the first `i` actions has gone well: what remains decides. */
  lemma {:induction false} ActionsFromPrefix(actions: seq<Action>, report: nat -> Report, i: nat, j: nat)
    requires j <= i <= |actions|
    requires forall k :: j <= k < i ==> !actions[k].Unregistered? && report(k).Done?
    ensures var (rest, failure) := ActionsFrom(actions, report, i);
      ActionsFrom(actions, report, j) == (actions[j..i] + rest, failure)
    decreases i - j
  {
    if j < i {
      ActionsFromPrefix(actions, report, i, j + 1);
      var (rest, _) := ActionsFrom(actions, report, i);
      assert actions[j..i] + rest == [actions[j]] + (actions[j + 1..i] + rest);
    } else {
      var (rest, _) := ActionsFrom(actions, report, i);
      assert actions[j..i] + rest == rest;
    }
  }

  lemma {:induction false} CanariesFromPrefix(canaries: seq<Action>, check: nat -> Check, i: nat, j: nat)
    requires j <= i <= |canaries|
    requires forall k :: j <= k < i ==> !canaries[k].Unregistered? && check(k).Passed?
    ensures var (rest, failure) := CanariesFrom(canaries, check, i);
      CanariesFrom(canaries, check, j) == (canaries[j..i] + rest, failure)
    decreases i - j
  {
    if j < i {
      CanariesFromPrefix(canaries, check, i, j + 1);
      var (rest, _) := CanariesFrom(canaries, check, i);
      assert canaries[j..i] + rest == [canaries[j]] + (canaries[j + 1..i] + rest);
    } else {
      var (rest, _) := CanariesFrom(canaries, check, i);
      assert canaries[j..i] + rest == rest;
    }
  }

  class RecoveryStore {
    var runs: map<string, Run>
    var lessons: map<string, Lesson>

    function State(): Store
      reads this
    {
      Store(runs, lessons)
    }

    constructor ()
      ensures State() == Store(map[], map[])
    {
      runs, lessons := map[], map[];
    }

    method EnsureLesson(fingerprint: string)
      modifies this`lessons
      ensures lessons == old(lessons)[fingerprint := LessonOf(old(State()), fingerprint)]
    {
      if fingerprint !in lessons {
        lessons := lessons[fingerprint := NEW_LESSON];
      } else {
        assert lessons == lessons[fingerprint := lessons[fingerprint]];
      }
    }

    /** The verified response if there is one, else the first that has not failed, else the operator. */
    method SelectResponse(plan: Plan) returns (response: Response)
      requires plan.fingerprint.Some?
      modifies this`lessons
      ensures (State(), PlanForResponse(plan, response), response) == Choice(old(State()), plan)
    {
      var f := plan.fingerprint.value;
      var responses := ResponsesOf(plan);
      EnsureLesson(f);
      var lesson := lessons[f];
      if |responses| == 1 && !lesson.status.Verified? {
        return responses[0];
      }
      if lesson.status.Verified? && lesson.preferred.Some? && lesson.preferred.value in responses {
        return lesson.preferred.value;
      }
      var i := 0;
      while i < |responses|
        invariant 0 <= i <= |responses|
        invariant forall j :: 0 <= j < i ==> FailedBefore(lesson.attempts, responses[j])
      {
        if !FailedBefore(lesson.attempts, responses[i]) {
          FirstUntriedAt(lesson.attempts, responses, i);
          return responses[i];
        }
        i := i + 1;
      }
      NoneUntried(lesson.attempts, responses);
      UpdatedTwice(old(lessons), f, lesson, lesson.(status := Failed, preferred := Some(AskOperator)));
      lessons := lessons[f := lesson.(status := Failed, preferred := Some(AskOperator))];
      response := AskOperator;
    }

    method RecordLessonAttempt(plan: Plan, response: Response, failed: bool)
      modifies this`lessons
      ensures State() == WithLesson(old(State()), plan, response, failed)
    {
      if plan.fingerprint.Some? {
        var f := plan.fingerprint.value;
        EnsureLesson(f);
        lessons := lessons[f := Taught(lessons[f], response, failed)];
      }
    }

    method RecordNeedsOperator(key: string, reason: Reason, fingerprint: Option<string>) returns (receipt: Receipt)
      modifies this
      ensures (State(), receipt) == Escalate(old(State()), key, reason, fingerprint)
    {
      var k := SafeName(key);
      var lessonNotify := true;
      if fingerprint.Some? {
        EnsureLesson(fingerprint.value);
        var lesson := lessons[fingerprint.value];
        lessonNotify := !lesson.emitted;
        UpdatedTwice(old(lessons), fingerprint.value, lesson,
                     lesson.(status := Escalated, preferred := Some(AskOperator), emitted := true));
        lessons := lessons[fingerprint.value := lesson.(status := Escalated, preferred := Some(AskOperator), emitted := true)];
      }
      var notify := k !in runs || !runs[k].emitted;
      if k in runs {
        runs := runs[k := runs[k].(status := NeedsOperator, emitted := true, evidence := NO_EVIDENCE)];
      } else {
        runs := runs[k := Run(None, NeedsOperator, 0, None, true, NO_EVIDENCE)];
      }
      receipt := Receipt(NeedsOperator, reason, None, k, 0, None, NO_EVIDENCE, notify && lessonNotify);
    }

    method ClaimAttempt(plan: Plan, response: Response, now: int) returns (progress: Progress)
      modifies this`runs
      ensures (State(), progress) == Claim(old(State()), plan, response, now)
    {
      if plan.key !in runs {
        runs := runs[plan.key := Run(Some(plan.failureClass), Retrying, 1, None, false, NO_EVIDENCE)];
        return Started(Flight(plan, response, 1, now));
      }
      var row := runs[plan.key];
      if row.attempt + 1 > plan.maxAttempts {
        var exhausted := Updated(row, plan, NeedsOperator, row.attempt, None, Evidence([], [], Some(plan.response)));
        runs := runs[plan.key := exhausted];
        return Answered(UpdateReceipt(exhausted, plan.key, AttemptsExhausted, !row.emitted));
      }
      runs := runs[plan.key := row.(status := Retrying, attempt := row.attempt + 1, nextRetryAt := None)];
      progress := Started(Flight(plan, response, row.attempt + 1, now));
    }

    /** `run_recovery` up to its claim. */
    method BeginRecovery(plan: Plan, now: int) returns (progress: Progress)
      modifies this
      ensures (State(), progress) == Begin(old(State()), plan, now)
    {
      if plan.key in runs {
        var blocked := Blocked(runs[plan.key], now);
        if blocked.Some? {
          return Answered(ReceiptOf(runs[plan.key], plan.key, blocked.value));
        }
      }
      var chosen, response := plan, plan.response;
      if plan.fingerprint.Some? {
        response := SelectResponse(plan);
        chosen := PlanForResponse(plan, response);
        if response.AskOperator? || response.RepairTaskRequired? {
          var receipt := RecordNeedsOperator(plan.key,
            if response.RepairTaskRequired? then RepairTaskNeeded else AdaptationsExhausted, plan.fingerprint);
          return Answered(receipt);
        }
      }
      progress := ClaimAttempt(chosen, response, now);
    }

    /** The failed or verified attempt goes into the tables. */
    method FinishRecovery(flight: Flight, x: Execution) returns (receipt: Receipt)
      requires flight.plan.key in runs
      modifies this
      ensures (State(), receipt) == Finish(old(State()), flight, x)
    {
      var plan := flight.plan;
      var row := runs[plan.key];
      var e := Evidence(x.actions, x.canaries, Some(plan.response));
      var reason := RecoveryVerified;
      var row';
      if x.failure.Some? {
        reason := x.failure.value;
        if flight.attempt >= plan.maxAttempts {
          row' := Updated(row, plan, NeedsOperator, flight.attempt, None, e);
        } else {
          row' := Updated(row, plan, WaitingRecovery, flight.attempt, Some(flight.now + plan.backoff * flight.attempt), e);
        }
      } else {
        row' := Updated(row, plan, Recovered, flight.attempt, None, e);
      }
      RecordLessonAttempt(plan, flight.response, x.failure.Some?);
      runs := runs[plan.key := row'];
      receipt := UpdateReceipt(row', plan.key, reason, row'.status.NeedsOperator? && !row.emitted);
    }

    /** One recovery: nothing if it is settled or too early, else at most one attempt at the plan. */
    method RunRecovery(plan: Plan, now: int, script: Script) returns (receipt: Receipt)
      modifies this
      ensures (State(), receipt) == Recovery(old(State()), plan, now, script)
    {
      var progress := BeginRecovery(plan, now);
      match progress
      case Answered(r) =>
        receipt := r;
      case Started(flight) =>
        var x := ExecutePlan(flight.plan, script);
        receipt := FinishRecovery(flight, x);
    }
  }

  /** The plan's actions in order, then its canaries, then the reactivation; the first fault ends it. */
  method ExecutePlan(plan: Plan, script: Script) returns (x: Execution)
    ensures x == Executed(plan, script)
  {
    var actions: seq<Action>, canaries: seq<Action> := [], [];
    var i := 0;
    while i < |plan.actions|
      invariant 0 <= i <= |plan.actions| && actions == plan.actions[..i]
      invariant forall k :: 0 <= k < i ==> !plan.actions[k].Unregistered? && script.report(k).Done?
    {
      ActionsFromPrefix(plan.actions, script.report, i, 0);
      if plan.actions[i].Unregistered? {
        return Execution(actions, canaries, Some(RecoveryVerified));
      }
      var report := script.report(i);
      if report.Raised? {
        return Execution(actions, canaries, Some(RecoveryVerified));
      }
      actions := actions + [plan.actions[i]];
      if report.NotDone? {
        return Execution(actions, canaries, Some(ActionFailed(report.detail)));
      }
      i := i + 1;
    }
    ActionsFromPrefix(plan.actions, script.report, i, 0);
    if plan.canaries != [] && script.canary.None? {
      return Execution(actions, canaries, Some(CanaryExecutorRequired));
    }
    if script.canary.Some? {
      var failure;
      canaries, failure := RunCanaries(plan.canaries, script.canary.value);
      if failure.Some? {
        return Execution(actions, canaries, failure);
      }
    }
    if plan.reactivation.Some? {
      if plan.reactivation.value.Unregistered? {
        return Execution(actions, canaries, Some(RecoveryVerified));
      }
      var report := script.report(|plan.actions|);
      if report.Raised? {
        return Execution(actions, canaries, Some(RecoveryVerified));
      }
      actions := actions + [plan.reactivation.value];
      if report.NotDone? {
        return Execution(actions, canaries, Some(ReactivationFailed(report.detail)));
      }
    }
    x := Execution(actions, canaries, None);
  }

  method RunCanaries(canaries: seq<Action>, check: nat -> Check) returns (passed: seq<Action>, failure: Option<Reason>)
    ensures (passed, failure) == CanariesFrom(canaries, check, 0)
  {
    passed := [];
    var i := 0;
    while i < |canaries|
      invariant 0 <= i <= |canaries| && passed == canaries[..i]
      invariant forall k :: 0 <= k < i ==> !canaries[k].Unregistered? && check(k).Passed?
    {
      CanariesFromPrefix(canaries, check, i, 0);
      assert canaries[0..i] + [] == passed;
      if canaries[i].Unregistered? {
        return passed, Some(RecoveryVerified);
      }
      match check(i)
      case CheckRaised =>
        return passed, Some(RecoveryVerified);
      case Rejected =>
        return passed, Some(CanaryFailed);
      case Passed =>
      passed := passed + [canaries[i]];
      i := i + 1;
    }
    CanariesFromPrefix(canaries, check, i, 0);
    assert canaries[0..i] + [] == passed;
    failure := None;
  }
}
