/** The durable retry machine of control recovery: an attempt is claimed in one transaction, its actions run
    outside of any, and the outcome is written in another. */
module ControlRecovery {
  import opened Common

  datatype FailureClass =
    | CodegenRuntimeUnhealthy
    | RegisteredCheckoutStaleOrDirty
    | LongLivedPollerStale
    | ExecutorServiceNotRunning
    | GithubActionsLaneUnavailable
    | QueueLabelStateStuck
    | CanaryFailedAfterRecovery
    | QueueIdleWithEligibleWork
    | AmbiguousMutatingResult

  /** The allow-listed maintenance actions, and any other name. */
  datatype Action =
    | RegisteredCheckoutRecover
    | RegisteredCheckoutFreshnessCanary
    | LongLivedPollerReload
    | ExecutorServicePreflight
    | CodegenRuntimeRecover
    | CodegenReadOnlyCanary
    | QueueReactivate
    | IssueRunnerContinue
    | Unregistered(name: string)

  datatype Response = ControlRecovery | QueueReplenish | RepairTaskRequired | AskOperator

  datatype Status = WaitingRecovery | Retrying | Recovered | NeedsOperator

  datatype Reason =
    | RecoveryVerified
    | ActionFailed(detail: Option<string>)
    | CanaryExecutorRequired
    | CanaryFailed
    | ReactivationFailed(detail: Option<string>)
    | RecoveryAlreadyDone
    | NeedsOperatorDurable
    | BackoffActive
    | AttemptsExhausted
    | RepairTaskNeeded
    | AdaptationsExhausted
    | Refused(text: string)

  datatype Plan = Plan(
    failureClass: FailureClass,
    key: string,
    actions: seq<Action>,
    canaries: seq<Action>,
    reactivation: Option<Action>,
    maxAttempts: int,
    backoff: int,
    fingerprint: Option<string>,
    response: Response,
    responses: seq<Response>)

  datatype Evidence = Evidence(actions: seq<Action>, canaries: seq<Action>, response: Option<Response>)

  /** A row of `recovery_runs`. */
  datatype Run = Run(
    failureClass: Option<FailureClass>,
    status: Status,
    attempt: nat,
    nextRetryAt: Option<int>,
    emitted: bool,
    evidence: Evidence)

  datatype LessonStatus = Open | Failed | Verified | Escalated

  datatype LessonAttempt = LessonAttempt(response: Response, failed: bool)

  /** A row of `failure_lessons`. */
  datatype Lesson = Lesson(status: LessonStatus, preferred: Option<Response>, attempts: seq<LessonAttempt>, emitted: bool)

  datatype Receipt = Receipt(
    status: Status,
    reason: Reason,
    failureClass: Option<FailureClass>,
    key: string,
    attempt: nat,
    nextRetryAt: Option<int>,
    evidence: Evidence,
    notify: bool)

  datatype Store = Store(runs: map<string, Run>, lessons: map<string, Lesson>)

  const NO_EVIDENCE := Evidence([], [], None)
  const NEW_LESSON := Lesson(Open, None, [], false)
  const MAX_LESSON_ATTEMPTS: nat := 10

  predicate KeyChar(c: char) {
    'a' <= c <= 'z' || 'A' <= c <= 'Z' || '0' <= c <= '9' || c == '.' || c == '_' || c == ':' || c == '-'
  }

  predicate SafeKey(k: string) {
    && 1 <= |k| <= 192
    && KeyChar(k[0]) && k[0] != '.' && k[0] != '_' && k[0] != ':' && k[0] != '-'
    && forall i :: 0 <= i < |k| ==> KeyChar(k[i])
  }

  function SafeName(k: string): string {
    if SafeKey(k) then k else "control:UNKNOWN"
  }

  // ---- plans -----------------------------------------------------------------------------------------

  function RegisteredResponses(c: FailureClass): seq<Response> {
    match c
    case QueueIdleWithEligibleWork => [QueueReplenish]
    case AmbiguousMutatingResult => [AskOperator]
    case _ => [ControlRecovery]
  }

  function PlanForResponse(plan: Plan, response: Response): Plan {
    match response
    case ControlRecovery => plan
    case QueueReplenish => plan.(actions := [QueueReactivate], canaries := [], reactivation := None, response := response)
    case _ => plan.(actions := [], canaries := [], reactivation := None, response := response)
  }

  function BoundedPositiveInt(value: Option<int>, default: int, maximum: int): int {
    if value.None? || value.value <= 0 || value.value > maximum then default else value.value
  }

  /** What an accepted packet asks for; the fingerprint is present if the packet carries one. */
  datatype Packet = Packet(
    failureClass: FailureClass,
    key: string,
    maxAttempts: Option<int>,
    backoff: Option<int>,
    fingerprint: string,
    fingerprinted: bool)

  function ActionsOf(c: FailureClass): (seq<Action>, seq<Action>, Option<Action>) {
    match c
    case CodegenRuntimeUnhealthy => ([CodegenRuntimeRecover], [CodegenReadOnlyCanary], Some(QueueReactivate))
    case RegisteredCheckoutStaleOrDirty =>
      ([RegisteredCheckoutRecover], [RegisteredCheckoutFreshnessCanary], Some(QueueReactivate))
    case LongLivedPollerStale => ([LongLivedPollerReload], [RegisteredCheckoutFreshnessCanary], Some(QueueReactivate))
    case ExecutorServiceNotRunning => ([ExecutorServicePreflight], [CodegenReadOnlyCanary], Some(QueueReactivate))
    case GithubActionsLaneUnavailable => ([IssueRunnerContinue], [CodegenReadOnlyCanary], Some(QueueReactivate))
    case QueueLabelStateStuck => ([QueueReactivate], [RegisteredCheckoutFreshnessCanary], None)
    case CanaryFailedAfterRecovery => ([], [], None)
    case QueueIdleWithEligibleWork => ([QueueReactivate], [], None)
    case AmbiguousMutatingResult => ([], [], None)
  }

  predicate HasOwnResponse(c: FailureClass) {
    c.QueueIdleWithEligibleWork? || c.AmbiguousMutatingResult?
  }

  /** `build_recovery_plan` for a packet whose class was recognised. */
  function BuildPlan(p: Packet): Option<Plan> {
    if !SafeKey(p.key) then None
    else
      var responses := RegisteredResponses(p.failureClass);
      var (actions, canaries, reactivation) := ActionsOf(p.failureClass);
      var plan := Plan(p.failureClass, p.key, actions, canaries, reactivation,
                       BoundedPositiveInt(p.maxAttempts, 3, 5), BoundedPositiveInt(p.backoff, 60, 3600),
                       if p.fingerprinted || HasOwnResponse(p.failureClass) then Some(p.fingerprint) else None,
                       ControlRecovery, responses);
      Some(if HasOwnResponse(p.failureClass) then PlanForResponse(plan, responses[0]) else plan)
  }

  // ---- lessons ---------------------------------------------------------------------------------------

  function LessonOf(s: Store, fingerprint: string): Lesson {
    if fingerprint in s.lessons then s.lessons[fingerprint] else NEW_LESSON
  }

  predicate FailedBefore(attempts: seq<LessonAttempt>, r: Response) {
    exists i :: 0 <= i < |attempts| && attempts[i].failed && attempts[i].response == r
  }

  function FirstUntried(attempts: seq<LessonAttempt>, responses: seq<Response>): Option<Response> {
    if responses == [] then None
    else if !FailedBefore(attempts, responses[0]) then Some(responses[0])
    else FirstUntried(attempts, responses[1..])
  }

  /** `_select_response` on one lesson. */
  function Selected(lesson: Lesson, responses: seq<Response>): (Lesson, Response)
    requires responses != []
  {
    if |responses| == 1 && !lesson.status.Verified? then (lesson, responses[0])
    else if lesson.status.Verified? && lesson.preferred.Some? && lesson.preferred.value in responses then
      (lesson, lesson.preferred.value)
    else
      match FirstUntried(lesson.attempts, responses)
      case Some(r) => (lesson, r)
      case None => (lesson.(status := Failed, preferred := Some(AskOperator)), AskOperator)
  }

  function ResponsesOf(plan: Plan): (r: seq<Response>)
    ensures r != []
  {
    if plan.responses != [] then plan.responses else RegisteredResponses(plan.failureClass)
  }

  function LastTen(attempts: seq<LessonAttempt>): seq<LessonAttempt> {
    if |attempts| <= MAX_LESSON_ATTEMPTS then attempts else attempts[|attempts| - MAX_LESSON_ATTEMPTS..]
  }

  function Taught(lesson: Lesson, response: Response, failed: bool): Lesson {
    var attempts := LastTen(lesson.attempts + [LessonAttempt(response, failed)]);
    if failed then lesson.(status := Failed, attempts := attempts)
    else lesson.(status := Verified, preferred := Some(response), attempts := attempts)
  }

  /** `_record_lesson_attempt`, for a plan that has a fingerprint. */
  function WithLesson(s: Store, plan: Plan, response: Response, failed: bool): Store {
    if plan.fingerprint.None? then s
    else
      var f := plan.fingerprint.value;
      s.(lessons := s.lessons[f := Taught(LessonOf(s, f), response, failed)])
  }

  // ---- executing a plan ------------------------------------------------------------------------------

  /** A call of the action executor reports, or raises. */
  datatype Report = Done | NotDone(detail: Option<string>) | Raised

  datatype Check = Passed | Rejected | CheckRaised

  /** What the executors answer, call by call; there may be no canary executor. */
  datatype Script = Script(report: nat -> Report, canary: Option<nat -> Check>)

  /** What was executed, and the reason of the failure if there was one. */
  datatype Execution = Execution(actions: seq<Action>, canaries: seq<Action>, failure: Option<Reason>)

  function ActionsFrom(actions: seq<Action>, report: nat -> Report, i: nat): (seq<Action>, Option<Reason>)
    requires i <= |actions|
    decreases |actions| - i
  {
    if i == |actions| then ([], None)
    else if actions[i].Unregistered? then ([], Some(RecoveryVerified))
    else match report(i)
      case Raised => ([], Some(RecoveryVerified))
      case NotDone(detail) => ([actions[i]], Some(ActionFailed(detail)))
      case Done => var (rest, failure) := ActionsFrom(actions, report, i + 1); ([actions[i]] + rest, failure)
  }

  function CanariesFrom(canaries: seq<Action>, check: nat -> Check, i: nat): (seq<Action>, Option<Reason>)
    requires i <= |canaries|
    decreases |canaries| - i
  {
    if i == |canaries| then ([], None)
    else if canaries[i].Unregistered? then ([], Some(RecoveryVerified))
    else match check(i)
      case CheckRaised => ([], Some(RecoveryVerified))
      case Rejected => ([], Some(CanaryFailed))
      case Passed => var (rest, failure) := CanariesFrom(canaries, check, i + 1); ([canaries[i]] + rest, failure)
  }

  function CanaryPhase(plan: Plan, script: Script): (seq<Action>, Option<Reason>) {
    match script.canary
    case None => ([], if plan.canaries != [] then Some(CanaryExecutorRequired) else None)
    case Some(check) => CanariesFrom(plan.canaries, check, 0)
  }

  /** The reactivation is the action call after all others. An unregistered name or an exception stops
      everything with the reason as it stood, and the call that raised is not listed. */
  function Executed(plan: Plan, script: Script): Execution {
    var (actions, failure) := ActionsFrom(plan.actions, script.report, 0);
    if failure.Some? then Execution(actions, [], failure)
    else
      var (canaries, failed) := CanaryPhase(plan, script);
      if failed.Some? || plan.reactivation.None? then Execution(actions, canaries, failed)
      else if plan.reactivation.value.Unregistered? then Execution(actions, canaries, Some(RecoveryVerified))
      else match script.report(|plan.actions|)
        case Done => Execution(actions + [plan.reactivation.value], canaries, None)
        case Raised => Execution(actions, canaries, Some(RecoveryVerified))
        case NotDone(detail) => Execution(actions + [plan.reactivation.value], canaries, Some(ReactivationFailed(detail)))
  }

  // ---- the transactions ------------------------------------------------------------------------------

  /** Why a call with this row does nothing now, if it does nothing. */
  function Blocked(row: Run, now: int): Option<Reason> {
    match row.status
    case Recovered => Some(RecoveryAlreadyDone)
    case NeedsOperator => Some(NeedsOperatorDurable)
    case _ => if row.nextRetryAt.Some? && now < row.nextRetryAt.value then Some(BackoffActive) else None
  }

  function ReceiptOf(row: Run, key: string, reason: Reason): Receipt {
    Receipt(row.status, reason, row.failureClass, key, row.attempt, row.nextRetryAt, row.evidence, false)
  }

  /** `record_needs_operator`. */
  function Escalate(s: Store, key: string, reason: Reason, fingerprint: Option<string>): (Store, Receipt) {
    var k := SafeName(key);
    var lessonNotify := fingerprint.Some? ==> !LessonOf(s, fingerprint.value).emitted;
    var notify := k !in s.runs || !s.runs[k].emitted;
    var row := if k in s.runs then s.runs[k].(status := NeedsOperator, emitted := true, evidence := NO_EVIDENCE)
               else Run(None, NeedsOperator, 0, None, true, NO_EVIDENCE);
    var lessons :=
      if fingerprint.None? then s.lessons
      else s.lessons[fingerprint.value :=
             LessonOf(s, fingerprint.value).(status := Escalated, preferred := Some(AskOperator), emitted := true)];
    (Store(s.runs[k := row], lessons),
     Receipt(NeedsOperator, reason, None, k, 0, None, NO_EVIDENCE, notify && lessonNotify))
  }

  /** `_update` and `_mark_needs_operator` on an existing row. */
  function Updated(row: Run, plan: Plan, status: Status, attempt: nat, nextRetryAt: Option<int>, e: Evidence): Run {
    Run(Some(plan.failureClass), status, attempt, nextRetryAt, row.emitted || status.NeedsOperator?, e)
  }

  function UpdateReceipt(row: Run, key: string, reason: Reason, notify: bool): Receipt {
    Receipt(row.status, reason, row.failureClass, key, row.attempt, row.nextRetryAt, row.evidence, notify)
  }

  /** A call is answered at once, or has claimed an attempt at the plan with the response chosen for it. */
  datatype Flight = Flight(plan: Plan, response: Response, attempt: nat, now: int)

  datatype Progress = Answered(receipt: Receipt) | Started(flight: Flight)

  /** The claim transaction. */
  function Claim(s: Store, plan: Plan, response: Response, now: int): (Store, Progress) {
    if plan.key !in s.runs then
      (s.(runs := s.runs[plan.key := Run(Some(plan.failureClass), Retrying, 1, None, false, NO_EVIDENCE)]), Started(Flight(plan, response, 1, now)))
    else
      var row := s.runs[plan.key];
      if row.attempt + 1 > plan.maxAttempts then
        var row' := Updated(row, plan, NeedsOperator, row.attempt, None, Evidence([], [], Some(plan.response)));
        (s.(runs := s.runs[plan.key := row']), Answered(UpdateReceipt(row', plan.key, AttemptsExhausted, !row.emitted)))
      else
        (s.(runs := s.runs[plan.key := row.(status := Retrying, attempt := row.attempt + 1, nextRetryAt := None)]),
         Started(Flight(plan, response, row.attempt + 1, now)))
  }

  /** The response chosen for a fingerprinted plan, and the lesson rows afterwards. */
  function Choice(s: Store, plan: Plan): (Store, Plan, Response) {
    if plan.fingerprint.None? then (s, plan, plan.response)
    else
      var f := plan.fingerprint.value;
      var (lesson, response) := Selected(LessonOf(s, f), ResponsesOf(plan));
      (s.(lessons := s.lessons[f := lesson]), PlanForResponse(plan, response), response)
  }

  predicate Hopeless(plan: Plan, response: Response) {
    plan.fingerprint.Some? && (response.AskOperator? || response.RepairTaskRequired?)
  }

  /** `run_recovery` up to its claim. */
  function Begin(s: Store, plan: Plan, now: int): (Store, Progress) {
    if plan.key in s.runs && Blocked(s.runs[plan.key], now).Some? then
      (s, Answered(ReceiptOf(s.runs[plan.key], plan.key, Blocked(s.runs[plan.key], now).value)))
    else
      var (s1, chosen, response) := Choice(s, plan);
      if Hopeless(chosen, response) then
        var reason := if response.RepairTaskRequired? then RepairTaskNeeded else AdaptationsExhausted;
        var (s2, receipt) := Escalate(s1, plan.key, reason, plan.fingerprint);
        (s2, Answered(receipt))
      else Claim(s1, chosen, response, now)
  }

  /** `run_recovery` once the response is chosen; the claim transaction looks at the row again. */
  function Resumed(s: Store, plan: Plan, response: Response, now: int): (Store, Progress) {
    if Hopeless(plan, response) then
      var reason := if response.RepairTaskRequired? then RepairTaskNeeded else AdaptationsExhausted;
      var (s1, receipt) := Escalate(s, plan.key, reason, plan.fingerprint);
      (s1, Answered(receipt))
    else if plan.key in s.runs && Blocked(s.runs[plan.key], now).Some? then
      (s, Answered(ReceiptOf(s.runs[plan.key], plan.key, Blocked(s.runs[plan.key], now).value)))
    else Claim(s, plan, response, now)
  }

  /** `run_recovery` from the end of its actions. */
  function Finish(s: Store, flight: Flight, x: Execution): (Store, Receipt) {
    var Flight(plan, response, attempt, now) := flight;
    var row := if plan.key in s.runs then s.runs[plan.key] else Run(None, Retrying, attempt, None, false, NO_EVIDENCE);
    var e := Evidence(x.actions, x.canaries, Some(plan.response));
    var row' :=
      if x.failure.None? then Updated(row, plan, Recovered, attempt, None, e)
      else if attempt >= plan.maxAttempts then Updated(row, plan, NeedsOperator, attempt, None, e)
      else Updated(row, plan, WaitingRecovery, attempt, Some(now + plan.backoff * attempt), e);
    var taught := WithLesson(s, plan, response, x.failure.Some?);
    var reason := if x.failure.None? then RecoveryVerified else x.failure.value;
    (if plan.key in s.runs then taught.(runs := taught.runs[plan.key := row']) else taught,
     UpdateReceipt(row', plan.key, reason, row'.status.NeedsOperator? && !row.emitted))
  }

  // ---- what executing guarantees ---------------------------------------------------------------------

  predicate Registered(actions: seq<Action>) {
    forall i :: 0 <= i < |actions| ==> !actions[i].Unregistered?
  }

  ghost predicate AllReported(actions: seq<Action>, report: nat -> Report, i: nat)
    requires i <= |actions|
  {
    forall j :: i <= j < |actions| ==> !actions[j].Unregistered? && report(j).Done?
  }

  ghost predicate AllPassed(canaries: seq<Action>, check: nat -> Check, i: nat)
    requires i <= |canaries|
  {
    forall j :: i <= j < |canaries| ==> !canaries[j].Unregistered? && check(j).Passed?
  }

  /** These calls reported. */
  ghost predicate Returned(report: nat -> Report, i: nat, n: nat) {
    forall j :: i <= j < i + n ==> !report(j).Raised?
  }

  lemma {:induction false} ActionsFromExact(actions: seq<Action>, report: nat -> Report, i: nat)
    requires i <= |actions|
    ensures var (done, failure) := ActionsFrom(actions, report, i);
      && (failure.None? <==> AllReported(actions, report, i))
      && done <= actions[i..] && Registered(done) && Returned(report, i, |done|)
      && (failure.None? ==> done == actions[i..])
    decreases |actions| - i
  {
    if i < |actions| {
      assert actions[i..] == [actions[i]] + actions[i + 1..];
      ActionsFromExact(actions, report, i + 1);
    }
  }

  lemma {:induction false} CanariesFromExact(canaries: seq<Action>, check: nat -> Check, i: nat)
    requires i <= |canaries|
    ensures var (done, failure) := CanariesFrom(canaries, check, i);
      && (failure.None? <==> AllPassed(canaries, check, i))
      && done <= canaries[i..] && (failure.None? ==> done == canaries[i..])
    decreases |canaries| - i
  {
    if i < |canaries| {
      assert canaries[i..] == [canaries[i]] + canaries[i + 1..];
      CanariesFromExact(canaries, check, i + 1);
    }
  }

  ghost predicate ActionsDone(plan: Plan, script: Script) {
    AllReported(plan.actions, script.report, 0)
  }

  ghost predicate CanariesPassed(plan: Plan, script: Script) {
    match script.canary
    case None => plan.canaries == []
    case Some(check) => AllPassed(plan.canaries, check, 0)
  }

  ghost predicate Reactivated(plan: Plan, script: Script) {
    plan.reactivation.Some? ==> !plan.reactivation.value.Unregistered? && script.report(|plan.actions|).Done?
  }

  /** A recovery is verified exactly when every action reported done, every canary passed and the queue was
      reopened. Whatever happens, only registered actions that reported are listed, in order, and the reopening comes
      after the last canary. */
  lemma VerifiedExactly(plan: Plan, script: Script)
    ensures Executed(plan, script).failure.None? <==>
            ActionsDone(plan, script) && CanariesPassed(plan, script) && Reactivated(plan, script)
    ensures Registered(Executed(plan, script).actions)
    ensures Returned(script.report, 0, |Executed(plan, script).actions|)
    ensures Executed(plan, script).actions <= plan.actions ||
            (plan.reactivation.Some? && Executed(plan, script).actions == plan.actions + [plan.reactivation.value])
    ensures |Executed(plan, script).actions| > |plan.actions| ==> ActionsDone(plan, script) && CanariesPassed(plan, script)
  {
    ActionsFromExact(plan.actions, script.report, 0);
    assert plan.actions[0..] == plan.actions;
    if script.canary.Some? {
      CanariesFromExact(plan.canaries, script.canary.value, 0);
    }
  }

  // ---- what selecting guarantees ---------------------------------------------------------------------

  lemma {:induction false} FirstUntriedExact(attempts: seq<LessonAttempt>, responses: seq<Response>)
    ensures var r := FirstUntried(attempts, responses);
      && (r.Some? ==> r.value in responses && !FailedBefore(attempts, r.value))
      && (r.None? ==> forall x :: x in responses ==> FailedBefore(attempts, x))
  {
    if responses != [] {
      assert responses == [responses[0]] + responses[1..];
      FirstUntriedExact(attempts, responses[1..]);
    }
  }

  /** A verified response is used again; with a choice, one that failed is not, and the operator is asked only
      when all have failed or the registry says so. */
  lemma SelectedExactly(lesson: Lesson, responses: seq<Response>)
    requires responses != []
    ensures var r := Selected(lesson, responses).1;
      if lesson.status.Verified? && lesson.preferred.Some? && lesson.preferred.value in responses then
        r == lesson.preferred.value
      else if |responses| == 1 && !lesson.status.Verified? then r == responses[0]
      else if r in responses then
        !FailedBefore(lesson.attempts, r) || (r.AskOperator? && forall x :: x in responses ==> FailedBefore(lesson.attempts, x))
      else r.AskOperator? && forall x :: x in responses ==> FailedBefore(lesson.attempts, x)
  {
    FirstUntriedExact(lesson.attempts, responses);
  }

  /** A packet's plan allows between one and five attempts and waits between a second and an hour per attempt. */
  lemma PacketPlans(p: Packet)
    ensures BuildPlan(p).Some? <==> SafeKey(p.key)
    ensures BuildPlan(p).Some? ==>
      var plan := BuildPlan(p).value;
      && plan.key == p.key && 1 <= plan.maxAttempts <= 5 && 1 <= plan.backoff <= 3600
      && Registered(plan.actions) && Registered(plan.canaries)
      && (p.failureClass.AmbiguousMutatingResult? ==> Hopeless(plan, plan.response) && plan.actions == [] && plan.reactivation.None?)
  {
  }
}
