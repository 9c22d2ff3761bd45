/** What each transaction of a recovery writes and answers, field by field, and what the lessons remember. */
module ControlRecoveryAnswers {
  import opened Common
  import opened ControlRecovery
  import opened ControlRecoveryRuns

  // ---- the claim -------------------------------------------------------------------------------------

  /** The receipt repeats the row and tells nobody. */
  predicate Repeats(r: Receipt, key: string, row: Run) {
    && r.key == key && r.status == row.status && r.attempt == row.attempt && r.nextRetryAt == row.nextRetryAt
    && r.failureClass == row.failureClass && r.evidence == row.evidence && !r.notify
  }

  /** A call for a case that is closed, with the operator or waiting changes nothing, repeats the row and says which it is. */
  lemma StoppedExactly(s: Store, plan: Plan, now: int)
    requires plan.key in s.runs
    ensures var row := s.runs[plan.key];
      var waits := !row.status.Recovered? && !row.status.NeedsOperator? && row.nextRetryAt.Some? && now < row.nextRetryAt.value;
      var (after, progress) := Begin(s, plan, now);
      row.status.Recovered? || row.status.NeedsOperator? || waits ==>
      && after == s && progress.Answered? && Repeats(progress.receipt, plan.key, row)
      && (progress.receipt.reason == RecoveryAlreadyDone <==> row.status.Recovered?)
      && (progress.receipt.reason == NeedsOperatorDurable <==> row.status.NeedsOperator?)
      && (progress.receipt.reason == BackoffActive <==> waits)
  {
  }

  lemma BlockedExactly(row: Run, now: int)
    ensures Blocked(row, now).None? <==>
            (row.status.Retrying? || row.status.WaitingRecovery?) && (row.nextRetryAt.Some? ==> now >= row.nextRetryAt.value)
  {
  }

  /** The row of a claimed attempt: RETRYING, one attempt more and no retry time; the rest as it was, or new. */
  lemma ClaimedExactly(s: Store, plan: Plan, response: Response, now: int)
    ensures var (after, progress) := Claim(s, plan, response, now);
      var attempt := if plan.key in s.runs then s.runs[plan.key].attempt + 1 else 1;
      && (progress.Started? <==> plan.key !in s.runs || attempt <= plan.maxAttempts)
      && after.lessons == s.lessons && plan.key in after.runs
      && (progress.Started? ==>
            && progress.flight == Flight(plan, response, attempt, now)
            && var row := after.runs[plan.key];
               && row.status.Retrying? && row.attempt == attempt && row.nextRetryAt.None?
               && if plan.key in s.runs then row.failureClass == s.runs[plan.key].failureClass && row.emitted == s.runs[plan.key].emitted
                                            && row.evidence == s.runs[plan.key].evidence
                  else row.failureClass == Some(plan.failureClass) && !row.emitted && row.evidence == Evidence([], [], None))
  {
  }

  /** Without an attempt left the case goes to the operator, who is told if the row has not told him. */
  lemma ExhaustedExactly(s: Store, plan: Plan, response: Response, now: int)
    requires plan.key in s.runs && s.runs[plan.key].attempt >= plan.maxAttempts
    ensures var (after, progress) := Claim(s, plan, response, now);
      var row := s.runs[plan.key];
      && after.runs == s.runs[plan.key := Run(Some(plan.failureClass), NeedsOperator, row.attempt, None, true, Evidence([], [], Some(plan.response)))]
      && progress == Answered(Receipt(NeedsOperator, AttemptsExhausted, Some(plan.failureClass), plan.key, row.attempt, None,
                                      Evidence([], [], Some(plan.response)), !row.emitted))
  {
  }

  // ---- the outcome -----------------------------------------------------------------------------------

  /** How the row stands after its actions. */
  predicate Stands(row: Run, plan: Plan, attempt: nat, now: int, x: Execution) {
    && row.failureClass == Some(plan.failureClass) && row.attempt == attempt
    && row.evidence == Evidence(x.actions, x.canaries, Some(plan.response))
    && if x.failure.None? then row.status.Recovered? && row.nextRetryAt.None?
       else if attempt < plan.maxAttempts then row.status.WaitingRecovery? && row.nextRetryAt == Some(now + plan.backoff * attempt)
       else row.status.NeedsOperator? && row.nextRetryAt.None?
  }

  /** The receipt of an outcome says of the case what its row does, gives the reason of the failure if there was one, and tells
      the operator exactly if the case is his now and he has not been told. */
  lemma FinishedExactly(s: Store, flight: Flight, x: Execution)
    requires flight.plan.key in s.runs
    ensures var (after, receipt) := Finish(s, flight, x);
      var key, was := flight.plan.key, s.runs[flight.plan.key];
      && key in after.runs && Stands(after.runs[key], flight.plan, flight.attempt, flight.now, x)
      && (forall k :: k != key ==> Lookup(after.runs, k) == Lookup(s.runs, k))
      && after.runs[key].emitted == (was.emitted || after.runs[key].status.NeedsOperator?)
      && receipt.key == key && receipt.status == after.runs[key].status && receipt.attempt == flight.attempt
      && receipt.nextRetryAt == after.runs[key].nextRetryAt && receipt.failureClass == Some(flight.plan.failureClass)
      && receipt.evidence == after.runs[key].evidence
      && receipt.reason == (if x.failure.None? then RecoveryVerified else x.failure.value)
      && (receipt.notify <==> receipt.status.NeedsOperator? && !was.emitted)
  {
  }

  // ---- the escalation --------------------------------------------------------------------------------

  /** An escalation leaves the case with the operator, its attempts and class as they were, and forgets the evidence; the lesson
      sends later cases to the operator too. */
  lemma EscalatedExactly(s: Store, key: string, reason: Reason, fingerprint: Option<string>)
    ensures var (after, receipt) := Escalate(s, key, reason, fingerprint);
      var k := if SafeKey(key) then key else "control:UNKNOWN";
      && k in after.runs
      && after.runs[k].status.NeedsOperator? && after.runs[k].emitted && after.runs[k].evidence == Evidence([], [], None)
      && (k in s.runs ==> after.runs[k].attempt == s.runs[k].attempt && after.runs[k].failureClass == s.runs[k].failureClass
                          && after.runs[k].nextRetryAt == s.runs[k].nextRetryAt)
      && (k !in s.runs ==> after.runs[k].attempt == 0 && after.runs[k].failureClass.None? && after.runs[k].nextRetryAt.None?)
      && (forall other :: other != k ==> Lookup(after.runs, other) == Lookup(s.runs, other))
      && (forall f :: Some(f) != fingerprint ==> Lookup(after.lessons, f) == Lookup(s.lessons, f))
      && (fingerprint.Some? ==>
            && fingerprint.value in after.lessons
            && var lesson := after.lessons[fingerprint.value];
               lesson.status.Escalated? && lesson.preferred == Some(AskOperator) && lesson.emitted
               && lesson.attempts == (if fingerprint.value in s.lessons then s.lessons[fingerprint.value].attempts else []))
      && receipt.status.NeedsOperator? && receipt.reason == reason && receipt.failureClass.None? && receipt.key == k
      && receipt.attempt == 0 && receipt.nextRetryAt.None? && receipt.evidence == Evidence([], [], None)
  {
  }

  // ---- lessons ---------------------------------------------------------------------------------------

  function LastOnes(s: seq<LessonAttempt>): seq<LessonAttempt> {
    if |s| > 10 then s[|s| - 10..] else s
  }

  /** What the outcomes of a history teach about a fingerprint, in order: the response tried and whether it failed. */
  ghost function Tried(w: World, events: seq<Event>, f: string): seq<LessonAttempt>
    requires Legal(w, events)
    decreases |events|
  {
    if events == [] then []
    else TriedBy(w, events[0], f) + Tried(Step(w, events[0]), events[1..], f)
  }

  function TriedBy(w: World, e: Event, f: string): seq<LessonAttempt>
    requires Enabled(w, e)
  {
    if e.Outcome? && w.flights[e.key].plan.fingerprint == Some(f) then
      [LessonAttempt(w.flights[e.key].response, Executed(w.flights[e.key].plan, e.script).failure.Some?)]
    else []
  }

  lemma EscalateLessons(s: Store, key: string, reason: Reason, fingerprint: Option<string>, f: string)
    ensures LessonOf(Escalate(s, key, reason, fingerprint).0, f).attempts == LessonOf(s, f).attempts
  {
  }

  lemma ChoiceLessons(s: Store, plan: Plan, f: string)
    ensures LessonOf(Choice(s, plan).0, f).attempts == LessonOf(s, f).attempts
  {
  }

  lemma ClaimLessons(s: Store, plan: Plan, response: Response, now: int)
    ensures Claim(s, plan, response, now).0.lessons == s.lessons
  {
  }

  lemma BeginLessons(s: Store, plan: Plan, now: int, f: string)
    ensures LessonOf(Begin(s, plan, now).0, f).attempts == LessonOf(s, f).attempts
  {
    var (s1, chosen, response) := Choice(s, plan);
    ChoiceLessons(s, plan, f);
    EscalateLessons(s1, plan.key, RepairTaskNeeded, plan.fingerprint, f);
    EscalateLessons(s1, plan.key, AdaptationsExhausted, plan.fingerprint, f);
    ClaimLessons(s1, chosen, response, now);
  }

  lemma ResumedLessons(s: Store, plan: Plan, response: Response, now: int, f: string)
    ensures LessonOf(Resumed(s, plan, response, now).0, f).attempts == LessonOf(s, f).attempts
  {
    EscalateLessons(s, plan.key, RepairTaskNeeded, plan.fingerprint, f);
    EscalateLessons(s, plan.key, AdaptationsExhausted, plan.fingerprint, f);
    ClaimLessons(s, plan, response, now);
  }

  lemma FinishLessons(s: Store, flight: Flight, x: Execution, f: string)
    ensures LessonOf(Finish(s, flight, x).0, f).attempts ==
            if flight.plan.fingerprint == Some(f) then
              LastOnes(LessonOf(s, f).attempts + [LessonAttempt(flight.response, x.failure.Some?)])
            else LessonOf(s, f).attempts
  {
  }

  lemma StepTries(w: World, e: Event, f: string)
    requires Enabled(w, e) && |LessonOf(w.store, f).attempts| <= 10
    ensures LessonOf(Step(w, e).store, f).attempts == LastOnes(LessonOf(w.store, f).attempts + TriedBy(w, e, f))
  {
    match e
    case Call(plan, now, _) => BeginLessons(w.store, plan, now, f);
    case Outcome(key, script, _) => FinishLessons(w.store, w.flights[key], Executed(w.flights[key].plan, script), f);
    case Crash(_) =>
    case Choose(plan, _) => ChoiceLessons(w.store, plan, f);
    case Proceed(key, _) => ResumedLessons(w.store, w.chosen[key].plan, w.chosen[key].response, w.chosen[key].now, f);
    case Record(key, reason, fingerprint, _) => EscalateLessons(w.store, key, reason, fingerprint, f);
  }

  lemma LastOnesDrop(s: seq<LessonAttempt>, k: nat)
    requires k + 10 <= |s|
    ensures LastOnes(s[k..]) == LastOnes(s)
  {
  }

  lemma LastOnesOfLast(ab: seq<LessonAttempt>, c: seq<LessonAttempt>)
    ensures LastOnes(LastOnes(ab) + c) == LastOnes(ab + c)
  {
    if |ab| > 10 {
      var k := |ab| - 10;
      assert ab[k..] + c == (ab + c)[k..];
      LastOnesDrop(ab + c, k);
    }
  }

  lemma LastOnesJoined(a: seq<LessonAttempt>, b: seq<LessonAttempt>, c: seq<LessonAttempt>)
    ensures LastOnes(LastOnes(a + b) + c) == LastOnes(a + (b + c))
  {
    LastOnesOfLast(a + b, c);
    assert a + b + c == a + (b + c);
  }

  lemma {:induction false} TriedRun(w: World, events: seq<Event>, f: string)
    requires Legal(w, events) && |LessonOf(w.store, f).attempts| <= 10
    ensures LessonOf(Final(w, events).store, f).attempts == LastOnes(LessonOf(w.store, f).attempts + Tried(w, events, f))
    decreases |events|
  {
    var had := LessonOf(w.store, f).attempts;
    if events == [] {
      assert had + [] == had;
    } else {
      StepTries(w, events[0], f);
      TriedRun(Step(w, events[0]), events[1..], f);
      LastOnesJoined(had, TriedBy(w, events[0], f), Tried(Step(w, events[0]), events[1..], f));
    }
  }

  /** In every history, of whatever keys: a lesson lists the last ten attempts made under its fingerprint, in order, each with
      its response and whether it failed. */
  lemma LessonsRemember(events: seq<Event>, f: string)
    requires Legal(FRESH, events)
    ensures LessonOf(Final(FRESH, events).store, f).attempts == LastOnes(Tried(FRESH, events, f))
  {
    TriedRun(FRESH, events, f);
    assert LessonOf(FRESH.store, f).attempts + Tried(FRESH, events, f) == Tried(FRESH, events, f);
  }

  /** The status and the preference of a lesson after an attempt under it: a success is preferred from then on; a failure leaves
      the preference. */
  lemma LessonAfter(s: Store, flight: Flight, x: Execution, f: string)
    requires flight.plan.fingerprint == Some(f)
    ensures var was, lesson := LessonOf(s, f), LessonOf(Finish(s, flight, x).0, f);
      && (if x.failure.None? then lesson.status.Verified? && lesson.preferred == Some(flight.response)
          else lesson.status == Failed && lesson.preferred == was.preferred)
      && lesson.emitted == was.emitted
      && (forall g :: g != f ==> Lookup(Finish(s, flight, x).0.lessons, g) == Lookup(s.lessons, g))
  {
  }

  /** The choice touches no row and at most the one lesson, which is there afterwards; without a fingerprint it does nothing.
      `ChosenExactly` says of the lesson and the response what they are. */
  lemma ChoiceExactly(s: Store, plan: Plan)
    ensures var (after, chosen, response) := Choice(s, plan);
      && after.runs == s.runs
      && (plan.fingerprint.None? ==> after == s && chosen == plan && response == plan.response)
      && (plan.fingerprint.Some? ==>
            var f := plan.fingerprint.value;
            var was := if f in s.lessons then s.lessons[f] else Lesson(Open, None, [], false);
            var responses := if plan.responses != [] then plan.responses
                             else if plan.failureClass.QueueIdleWithEligibleWork? then [QueueReplenish]
                             else if plan.failureClass.AmbiguousMutatingResult? then [AskOperator]
                             else [Response.ControlRecovery];
            && f in after.lessons && (after.lessons[f], response) == Selected(was, responses)
            && chosen == PlanForResponse(plan, response)
            && forall g :: g != f ==> Lookup(after.lessons, g) == Lookup(s.lessons, g))
  {
  }

  /** What a response makes of any plan: control recovery leaves it, replenishing only reopens the queue, and the other two do
      nothing. */
  lemma ResponsePlanExactly(plan: Plan, response: Response)
    ensures var p := PlanForResponse(plan, response);
      && (response.ControlRecovery? ==> p == plan)
      && (!response.ControlRecovery? ==>
            && p.canaries == [] && p.reactivation.None? && p.response == response
            && p.actions == if response.QueueReplenish? then [QueueReactivate] else [])
      && p.failureClass == plan.failureClass && p.key == plan.key && p.maxAttempts == plan.maxAttempts
      && p.backoff == plan.backoff && p.fingerprint == plan.fingerprint && p.responses == plan.responses
  {
  }

  // ---- the choice ------------------------------------------------------------------------------------

  /** Some remembered attempt with the response failed. */
  predicate FailedWith(attempts: seq<LessonAttempt>, r: Response) {
    LessonAttempt(r, true) in attempts
  }

  lemma {:induction false} FirstWithout(attempts: seq<LessonAttempt>, responses: seq<Response>)
    ensures match FirstUntried(attempts, responses)
            case None => forall r :: r in responses ==> FailedWith(attempts, r)
            case Some(r) => exists i :: 0 <= i < |responses| && responses[i] == r && !FailedWith(attempts, r)
                                        && forall j :: 0 <= j < i ==> FailedWith(attempts, responses[j])
  {
    if responses != [] {
      FailedIs(attempts, responses[0]);
      if FailedWith(attempts, responses[0]) {
        FirstWithout(attempts, responses[1..]);
        if FirstUntried(attempts, responses[1..]).Some? {
          var r := FirstUntried(attempts, responses[1..]).value;
          var i :| 0 <= i < |responses[1..]| && responses[1..][i] == r && !FailedWith(attempts, r)
                   && forall j :: 0 <= j < i ==> FailedWith(attempts, responses[1..][j]);
          assert responses[i + 1] == r;
          assert forall j :: 0 < j < i + 1 ==> responses[j] == responses[1..][j - 1];
        } else {
          assert responses == [responses[0]] + responses[1..];
        }
      } else {
        assert responses[0] == FirstUntried(attempts, responses).value;
      }
    }
  }

  lemma FailedIs(attempts: seq<LessonAttempt>, r: Response)
    ensures FailedBefore(attempts, r) <==> FailedWith(attempts, r)
  {
    if FailedBefore(attempts, r) {
      var i :| 0 <= i < |attempts| && attempts[i].failed && attempts[i].response == r;
      assert attempts[i] == LessonAttempt(r, true);
    }
    if FailedWith(attempts, r) {
      var i :| 0 <= i < |attempts| && attempts[i] == LessonAttempt(r, true);
      assert attempts[i].failed;
    }
  }

  /** Which response a lesson leads to: the verified one if it is registered; else the only one there is; else the first that is
      not known to have failed; else the operator. Only the last of these is written down. */
  lemma ChosenExactly(lesson: Lesson, responses: seq<Response>)
    requires responses != []
    ensures var (after, r) := Selected(lesson, responses);
      var reuse := lesson.status.Verified? && lesson.preferred.Some? && lesson.preferred.value in responses;
      var untried := exists x :: x in responses && !FailedWith(lesson.attempts, x);
      && (reuse ==> r == lesson.preferred.value && after == lesson)
      && (|responses| == 1 && !lesson.status.Verified? ==> r == responses[0] && after == lesson)
      && (!reuse && (|responses| > 1 || lesson.status.Verified?) && untried ==>
            after == lesson && exists i :: 0 <= i < |responses| && responses[i] == r && !FailedWith(lesson.attempts, r)
                                           && forall j :: 0 <= j < i ==> FailedWith(lesson.attempts, responses[j]))
      && (!reuse && (|responses| > 1 || lesson.status.Verified?) && !untried ==>
            r == AskOperator && after == Lesson(Failed, Some(AskOperator), lesson.attempts, lesson.emitted))
  {
    FirstWithout(lesson.attempts, responses);
  }

  // ---- why an execution failed -----------------------------------------------------------------------

  /** The first `i` calls were of registered actions and reported done. */
  ghost predicate DoneUpTo(actions: seq<Action>, report: nat -> Report, i: nat)
    requires i <= |actions|
  {
    forall j: nat :: j < i ==> !actions[j].Unregistered? && report(j).Done?
  }

  ghost predicate PassedUpTo(canaries: seq<Action>, check: nat -> Check, i: nat)
    requires i <= |canaries|
  {
    forall j: nat :: j < i ==> !canaries[j].Unregistered? && check(j).Passed?
  }

  /** How the calls from the `i`th on ended: at the `n`th, if they did not get through. */
  lemma {:induction false} ActionsEnd(actions: seq<Action>, report: nat -> Report, i: nat) returns (n: nat)
    requires i <= |actions| && DoneUpTo(actions, report, i)
    ensures i <= n <= |actions| && DoneUpTo(actions, report, n)
    ensures var (done, failure) := ActionsFrom(actions, report, i);
      if n == |actions| then failure.None? && done == actions[i..]
      else if actions[n].Unregistered? || report(n).Raised? then failure == Some(RecoveryVerified) && done == actions[i..n]
      else report(n).NotDone? && failure == Some(ActionFailed(report(n).detail)) && done == actions[i..n + 1]
    decreases |actions| - i
  {
    n := i;
    if i < |actions| && !actions[i].Unregistered? && report(i).Done? {
      n := ActionsEnd(actions, report, i + 1);
      assert actions[i..n] == [actions[i]] + actions[i + 1..n];
      assert n < |actions| ==> actions[i..n + 1] == [actions[i]] + actions[i + 1..n + 1];
    }
  }

  lemma {:induction false} CanariesEnd(canaries: seq<Action>, check: nat -> Check, i: nat) returns (n: nat)
    requires i <= |canaries| && PassedUpTo(canaries, check, i)
    ensures i <= n <= |canaries| && PassedUpTo(canaries, check, n)
    ensures var (done, failure) := CanariesFrom(canaries, check, i);
      && done == canaries[i..n]
      && if n == |canaries| then failure.None?
         else if canaries[n].Unregistered? || check(n).CheckRaised? then failure == Some(RecoveryVerified)
         else check(n).Rejected? && failure == Some(CanaryFailed)
    decreases |canaries| - i
  {
    n := i;
    if i < |canaries| && !canaries[i].Unregistered? && check(i).Passed? {
      n := CanariesEnd(canaries, check, i + 1);
      assert canaries[i..n] == [canaries[i]] + canaries[i + 1..n];
    }
  }

  /** Where an execution stops and what it then says: at the first action that is not registered, raises or is not done; then,
      if canaries are asked for without anyone to run them, or at the first canary that does not pass; then at the reopening
      of the queue. An exception, an unregistered name included, leaves the reason as it stood. */
  lemma StopsExactly(plan: Plan, script: Script) returns (n: nat, m: nat)
    ensures n <= |plan.actions| && DoneUpTo(plan.actions, script.report, n) && m <= |plan.canaries|
    ensures var x := Executed(plan, script);
      if n < |plan.actions| then
        && x.canaries == []
        && if plan.actions[n].Unregistered? || script.report(n).Raised? then
             x.failure == Some(RecoveryVerified) && x.actions == plan.actions[..n]
           else script.report(n).NotDone? && x.failure == Some(ActionFailed(script.report(n).detail)) && x.actions == plan.actions[..n + 1]
      else if script.canary.None? && plan.canaries != [] then
        x == Execution(plan.actions, [], Some(CanaryExecutorRequired))
      else if script.canary.Some? && m < |plan.canaries| then
        && PassedUpTo(plan.canaries, script.canary.value, m) && x.actions == plan.actions && x.canaries == plan.canaries[..m]
        && if plan.canaries[m].Unregistered? || script.canary.value(m).CheckRaised? then x.failure == Some(RecoveryVerified)
           else script.canary.value(m).Rejected? && x.failure == Some(CanaryFailed)
      else
        && x.canaries == plan.canaries
        && match plan.reactivation
           case None => x.failure.None? && x.actions == plan.actions
           case Some(last) =>
             if last.Unregistered? || script.report(n).Raised? then x.failure == Some(RecoveryVerified) && x.actions == plan.actions
             else x.actions == plan.actions + [last]
                  && x.failure == if script.report(n).Done? then None else Some(ReactivationFailed(script.report(n).detail))
  {
    n := ActionsEnd(plan.actions, script.report, 0);
    assert plan.actions[0..n] == plan.actions[..n];
    m := |plan.canaries|;
    if script.canary.Some? {
      m := CanariesEnd(plan.canaries, script.canary.value, 0);
      assert plan.canaries[0..m] == plan.canaries[..m];
    }
  }
}
