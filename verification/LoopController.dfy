/** The deterministic loop controller: one pure transition function. */
module LoopController {
  import opened Common

  datatype LoopState =
    | CREATED | READY | RUNNING | CHECKPOINTED | NEEDS_OPERATOR | HUMAN_REVIEW | BLOCKED | CANCELLED | DONE

  datatype LoopEvent =
    | PREPARED | STARTED | STEP_SUCCEEDED | STEP_FAILED | CHECKPOINT | REVIEW_REQUIRED | OPERATOR_REQUIRED
    | CANCEL | COMPLETE | TIMEOUT | BUDGET_EXHAUSTED | LEASE_EXPIRED

  /** `SUSPEND` is the decision CHECKPOINT, renamed to keep it apart from the event. */
  datatype LoopDecision = CONTINUE | RETRY | SUSPEND | REVIEW | ESCALATE | STOP | REJECT

  /** The stable reason tokens. */
  datatype LoopReason =
    | HaltedState | IllegalTransition | Cancelled | OperatorRequired | ReviewRequired | Timeout | BudgetExhausted | LeaseExpired
    | MaxIterationsExhausted | LoopPrepared | LoopStarted | LoopResumed | StepSucceeded
    | RetryLimitExhausted | StepFailedRetry | Checkpointed | Completed

  const HALTED: set<LoopState> := {NEEDS_OPERATOR, HUMAN_REVIEW, BLOCKED, CANCELLED, DONE}
  const ACTIVE: set<LoopState> := {CREATED, READY, RUNNING, CHECKPOINTED}
  const LEASED: set<LoopState> := {READY, RUNNING, CHECKPOINTED}

  /** `LoopPolicy`, with what its constructor checks in `ValidPolicy`. */
  datatype LoopPolicy = LoopPolicy(maxIterations: nat, retryLimit: nat, maxBudgetUnits: nat, failureExhaustionState: LoopState)

  predicate ValidPolicy(p: LoopPolicy) {
    p.maxIterations > 0 && p.failureExhaustionState in {BLOCKED, NEEDS_OPERATOR}
  }

  datatype LoopContext = LoopContext(
    state: LoopState,
    iterations: nat,
    retries: nat,
    budgetUsed: nat,
    deadlineAt: Option<nat>,
    leaseExpiresAt: Option<nat>
  )

  datatype LoopResult = LoopResult(
    previous: LoopContext,
    current: LoopContext,
    event: LoopEvent,
    accepted: bool,
    decision: LoopDecision,
    reason: LoopReason
  )

  function Go(previous: LoopContext, event: LoopEvent, state: LoopState, decision: LoopDecision, reason: LoopReason,
              budget: nat): LoopResult {
    LoopResult(previous, previous.(state := state, budgetUsed := budget), event, true, decision, reason)
  }

  function GoStep(previous: LoopContext, event: LoopEvent, state: LoopState, decision: LoopDecision, reason: LoopReason,
                  budget: nat, retries: nat): LoopResult {
    var r := Go(previous, event, state, decision, reason, budget);
    r.(current := r.current.(iterations := previous.iterations + 1, retries := retries))
  }

  function Reject(current: LoopContext, event: LoopEvent, reason: LoopReason): LoopResult {
    LoopResult(current, current, event, false, REJECT, reason)
  }

  /** Has the moment come? Only when both a moment and a clock reading are given. */
  predicate Due(at: Option<nat>, now: Option<nat>) {
    at.Some? && now.Some? && now.value >= at.value
  }

  function AdvanceLoop(current: LoopContext, event: LoopEvent, policy: LoopPolicy, now: Option<nat>, budgetDelta: nat): LoopResult {
    var budget: nat := current.budgetUsed + budgetDelta;
    if current.state in HALTED then Reject(current, event, HaltedState)
    else if event == CANCEL then
      if current.state !in ACTIVE then Reject(current, event, IllegalTransition)
      else Go(current, event, CANCELLED, STOP, Cancelled, budget)
    else if event == OPERATOR_REQUIRED then Go(current, event, NEEDS_OPERATOR, ESCALATE, OperatorRequired, budget)
    else if event == REVIEW_REQUIRED then Go(current, event, HUMAN_REVIEW, REVIEW, ReviewRequired, budget)
    else if event == TIMEOUT then Go(current, event, BLOCKED, STOP, Timeout, budget)
    else if event == BUDGET_EXHAUSTED then Go(current, event, NEEDS_OPERATOR, ESCALATE, BudgetExhausted, budget)
    else if event == LEASE_EXPIRED then
      if current.state !in LEASED then Reject(current, event, IllegalTransition)
      else Go(current, event, CHECKPOINTED, SUSPEND, LeaseExpired, budget)
    else if Due(current.deadlineAt, now) then Go(current, event, BLOCKED, STOP, Timeout, budget)
    else if Due(current.leaseExpiresAt, now) && current.state in LEASED then
      Go(current, event, CHECKPOINTED, SUSPEND, LeaseExpired, budget)
    else if budget > policy.maxBudgetUnits then Go(current, event, NEEDS_OPERATOR, ESCALATE, BudgetExhausted, budget)
    else if event in {STARTED, STEP_SUCCEEDED, STEP_FAILED} && current.iterations >= policy.maxIterations then
      Go(current, event, BLOCKED, STOP, MaxIterationsExhausted, budget)
    else if current.state == CREATED && event == PREPARED then Go(current, event, READY, CONTINUE, LoopPrepared, budget)
    else if current.state == READY && event == STARTED then Go(current, event, RUNNING, CONTINUE, LoopStarted, budget)
    else if current.state == CHECKPOINTED && event == STARTED then Go(current, event, RUNNING, CONTINUE, LoopResumed, budget)
    else if current.state == RUNNING && event == STEP_SUCCEEDED then
      GoStep(current, event, RUNNING, CONTINUE, StepSucceeded, budget, 0)
    else if current.state == RUNNING && event == STEP_FAILED then
      if current.retries + 1 > policy.retryLimit then
        GoStep(current, event, policy.failureExhaustionState,
               if policy.failureExhaustionState == NEEDS_OPERATOR then ESCALATE else STOP,
               RetryLimitExhausted, budget, current.retries + 1)
      else GoStep(current, event, RUNNING, RETRY, StepFailedRetry, budget, current.retries + 1)
    else if current.state == RUNNING && event == CHECKPOINT then Go(current, event, CHECKPOINTED, SUSPEND, Checkpointed, budget)
    else if current.state == RUNNING && event == COMPLETE then Go(current, event, DONE, STOP, Completed, budget)
    else Reject(current, event, IllegalTransition)
  }

  // ---- what one step keeps -----------------------------------------------------------------------

  /** Retries, iterations and budget stay within the policy wherever the loop can still run. */
  predicate WithinPolicy(c: LoopContext, p: LoopPolicy) {
    && c.retries <= c.iterations <= p.maxIterations
    && c.retries <= p.retryLimit + 1
    && (c.retries == p.retryLimit + 1 ==> c.state == p.failureExhaustionState)
    && (c.state in {CREATED, READY, RUNNING} ==> c.budgetUsed <= p.maxBudgetUnits)
  }

  lemma AdvanceKeepsWithinPolicy(c: LoopContext, e: LoopEvent, p: LoopPolicy, now: Option<nat>, delta: nat)
    requires ValidPolicy(p) && WithinPolicy(c, p)
    ensures WithinPolicy(AdvanceLoop(c, e, p, now, delta).current, p)
  {
  }

  /** A checkpointed loop that has overspent, or whatever it turns into. */
  predicate Overspent(c: LoopContext, p: LoopPolicy) {
    c.state in HALTED || (c.state == CHECKPOINTED && c.budgetUsed > p.maxBudgetUnits)
  }

  /** Once overspent at a checkpoint, never READY or RUNNING again. */
  lemma OverspentStays(c: LoopContext, e: LoopEvent, p: LoopPolicy, now: Option<nat>, delta: nat)
    requires ValidPolicy(p) && Overspent(c, p)
    ensures Overspent(AdvanceLoop(c, e, p, now, delta).current, p)
  {
  }

  /** The step that suspends a leased loop without looking at its budget. */
  predicate LeaseStep(c: LoopContext, e: LoopEvent, now: Option<nat>) {
    c.state in LEASED
    && (e == LEASE_EXPIRED
        || (e !in {CANCEL, OPERATOR_REQUIRED, REVIEW_REQUIRED, TIMEOUT, BUDGET_EXHAUSTED}
            && !Due(c.deadlineAt, now) && Due(c.leaseExpiresAt, now)))
  }

  /** An accepted step that ends over budget halts the loop exactly when it was not a lease step. */
  lemma OverBudgetHalts(c: LoopContext, e: LoopEvent, p: LoopPolicy, now: Option<nat>, delta: nat)
    requires ValidPolicy(p) && AdvanceLoop(c, e, p, now, delta).accepted
    requires c.budgetUsed + delta > p.maxBudgetUnits
    ensures AdvanceLoop(c, e, p, now, delta).current.state in HALTED <==> !LeaseStep(c, e, now)
  {
  }

  /** Halting is for ever, and rejected steps change nothing. */
  lemma HaltedStays(c: LoopContext, e: LoopEvent, p: LoopPolicy, now: Option<nat>, delta: nat)
    ensures c.state in HALTED ==> !AdvanceLoop(c, e, p, now, delta).accepted
    ensures !AdvanceLoop(c, e, p, now, delta).accepted ==> AdvanceLoop(c, e, p, now, delta).current == c
  {
  }

  // ---- what each step leads to -------------------------------------------------------------------

  /** These events are taken at once, whatever the clock and the budget say. */
  predicate Immediate(e: LoopEvent) {
    e in {CANCEL, OPERATOR_REQUIRED, REVIEW_REQUIRED, TIMEOUT, BUDGET_EXHAUSTED, LEASE_EXPIRED}
  }

  predicate Runs(e: LoopEvent) {
    e in {STARTED, STEP_SUCCEEDED, STEP_FAILED}
  }

  /** The deadline stops this step. */
  predicate PastDeadline(c: LoopContext, e: LoopEvent, now: Option<nat>) {
    !Immediate(e) && c.deadlineAt.Some? && now.Some? && c.deadlineAt.value <= now.value
  }

  /** The lease suspends it. */
  predicate PastLease(c: LoopContext, e: LoopEvent, now: Option<nat>) {
    && !Immediate(e) && !PastDeadline(c, e, now) && c.state != CREATED
    && c.leaseExpiresAt.Some? && now.Some? && c.leaseExpiresAt.value <= now.value
  }

  /** It would cost more than is left. */
  predicate PastBudget(c: LoopContext, e: LoopEvent, p: LoopPolicy, now: Option<nat>, delta: nat) {
    !Immediate(e) && !PastDeadline(c, e, now) && !PastLease(c, e, now) && c.budgetUsed + delta > p.maxBudgetUnits
  }

  /** There is no iteration left for it. */
  predicate PastIterations(c: LoopContext, e: LoopEvent, p: LoopPolicy, now: Option<nat>, delta: nat) {
    && Runs(e) && !PastDeadline(c, e, now) && !PastLease(c, e, now) && !PastBudget(c, e, p, now, delta)
    && c.iterations >= p.maxIterations
  }

  /** None of these, and not an immediate event: the step is an ordinary one. */
  predicate Ordinary(c: LoopContext, e: LoopEvent, p: LoopPolicy, now: Option<nat>, delta: nat) {
    && !Immediate(e) && !PastDeadline(c, e, now) && !PastLease(c, e, now) && !PastBudget(c, e, p, now, delta)
    && !PastIterations(c, e, p, now, delta)
  }

  predicate Live(c: LoopContext) {
    c.state == CREATED || c.state == READY || c.state == RUNNING || c.state == CHECKPOINTED
  }

  /** The pairs that an ordinary step may take. */
  predicate Legal(state: LoopState, e: LoopEvent) {
    || (state == CREATED && e == PREPARED)
    || (state in {READY, CHECKPOINTED} && e == STARTED)
    || (state == RUNNING && e in {STEP_SUCCEEDED, STEP_FAILED, CHECKPOINT, COMPLETE})
  }

  /** Nothing but a live loop takes a step; it takes every immediate event, except that one just created has no lease to
      lose, every step that a guard turns into a halt or a suspension, and of the ordinary ones the legal pairs. */
  lemma AcceptedExactly(c: LoopContext, e: LoopEvent, p: LoopPolicy, now: Option<nat>, delta: nat)
    ensures var r := AdvanceLoop(c, e, p, now, delta);
      && (r.accepted <==> Live(c) && if Immediate(e) then e != LEASE_EXPIRED || c.state != CREATED
                                     else Ordinary(c, e, p, now, delta) ==> Legal(c.state, e))
      && (!r.accepted ==> r.current == c && r.decision == REJECT)
      && (r.reason == HaltedState <==> !Live(c)) && (r.reason == IllegalTransition <==> Live(c) && !r.accepted)
      && r.previous == c && r.event == e
  {
  }

  /** The last failure that the policy allows. */
  predicate Exhausts(c: LoopContext, e: LoopEvent, p: LoopPolicy) {
    c.state == RUNNING && e == STEP_FAILED && c.retries >= p.retryLimit
  }

  predicate Completes(c: LoopContext, e: LoopEvent, p: LoopPolicy, now: Option<nat>, delta: nat) {
    Ordinary(c, e, p, now, delta) && c.state == RUNNING && e == COMPLETE
  }

  predicate Blocks(c: LoopContext, e: LoopEvent, p: LoopPolicy, now: Option<nat>, delta: nat) {
    || e == TIMEOUT || PastDeadline(c, e, now) || PastIterations(c, e, p, now, delta)
    || (Ordinary(c, e, p, now, delta) && Exhausts(c, e, p) && p.failureExhaustionState == BLOCKED)
  }

  predicate Escalates(c: LoopContext, e: LoopEvent, p: LoopPolicy, now: Option<nat>, delta: nat) {
    || e == OPERATOR_REQUIRED || e == BUDGET_EXHAUSTED || PastBudget(c, e, p, now, delta)
    || (Ordinary(c, e, p, now, delta) && Exhausts(c, e, p) && p.failureExhaustionState == NEEDS_OPERATOR)
  }

  predicate Suspends(c: LoopContext, e: LoopEvent, p: LoopPolicy, now: Option<nat>, delta: nat) {
    || e == LEASE_EXPIRED || PastLease(c, e, now)
    || (Ordinary(c, e, p, now, delta) && c.state == RUNNING && e == CHECKPOINT)
  }

  /** Where an accepted step leads, by its cause. */
  lemma LeadsExactly(c: LoopContext, e: LoopEvent, p: LoopPolicy, now: Option<nat>, delta: nat)
    requires ValidPolicy(p) && AdvanceLoop(c, e, p, now, delta).accepted
    ensures var state := AdvanceLoop(c, e, p, now, delta).current.state;
      && (state == DONE <==> Completes(c, e, p, now, delta))
      && (state == CANCELLED <==> e == CANCEL)
      && (state == HUMAN_REVIEW <==> e == REVIEW_REQUIRED)
      && (state == BLOCKED <==> Blocks(c, e, p, now, delta))
      && (state == NEEDS_OPERATOR <==> Escalates(c, e, p, now, delta))
      && (state == CHECKPOINTED <==> Suspends(c, e, p, now, delta))
      && (state == READY <==> Ordinary(c, e, p, now, delta) && c.state == CREATED && e == PREPARED)
      && (state == RUNNING <==> Ordinary(c, e, p, now, delta)
                                && (e == STARTED || e == STEP_SUCCEEDED || (e == STEP_FAILED && !Exhausts(c, e, p))))
      && state != CREATED
  {
  }

  /** The decision says where the step led. */
  lemma DecidesExactly(c: LoopContext, e: LoopEvent, p: LoopPolicy, now: Option<nat>, delta: nat)
    requires ValidPolicy(p) && AdvanceLoop(c, e, p, now, delta).accepted
    ensures var r := AdvanceLoop(c, e, p, now, delta);
      && (r.decision == REVIEW <==> r.current.state == HUMAN_REVIEW)
      && (r.decision == ESCALATE <==> r.current.state == NEEDS_OPERATOR)
      && (r.decision == STOP <==> r.current.state in {BLOCKED, CANCELLED, DONE})
      && (r.decision == SUSPEND <==> r.current.state == CHECKPOINTED)
      && (r.decision == RETRY <==> r.current.state == RUNNING && e == STEP_FAILED)
      && (r.decision == CONTINUE <==> r.current.state in {READY, RUNNING} && e != STEP_FAILED)
  {
  }

  /** The reason says why. */
  lemma SaysWhy(c: LoopContext, e: LoopEvent, p: LoopPolicy, now: Option<nat>, delta: nat)
    requires AdvanceLoop(c, e, p, now, delta).accepted
    ensures ReasonFits(c, e, p, now, delta, AdvanceLoop(c, e, p, now, delta).reason)
  {
  }

  predicate ReasonFits(c: LoopContext, e: LoopEvent, p: LoopPolicy, now: Option<nat>, delta: nat, reason: LoopReason) {
    match reason
    case Cancelled => e == CANCEL
    case OperatorRequired => e == OPERATOR_REQUIRED
    case ReviewRequired => e == REVIEW_REQUIRED
    case Timeout => e == TIMEOUT || PastDeadline(c, e, now)
    case BudgetExhausted => e == BUDGET_EXHAUSTED || PastBudget(c, e, p, now, delta)
    case LeaseExpired => e == LEASE_EXPIRED || PastLease(c, e, now)
    case MaxIterationsExhausted => PastIterations(c, e, p, now, delta)
    case LoopPrepared => Ordinary(c, e, p, now, delta) && e == PREPARED
    case LoopStarted => Ordinary(c, e, p, now, delta) && e == STARTED && c.state == READY
    case LoopResumed => Ordinary(c, e, p, now, delta) && e == STARTED && c.state == CHECKPOINTED
    case StepSucceeded => Ordinary(c, e, p, now, delta) && e == STEP_SUCCEEDED
    case StepFailedRetry => Ordinary(c, e, p, now, delta) && e == STEP_FAILED && c.retries < p.retryLimit
    case RetryLimitExhausted => Ordinary(c, e, p, now, delta) && e == STEP_FAILED && c.retries >= p.retryLimit
    case Checkpointed => Ordinary(c, e, p, now, delta) && e == CHECKPOINT
    case Completed => Ordinary(c, e, p, now, delta) && e == COMPLETE
    case _ => false
  }

  /** Exactly one reason fits, so this says which one an accepted step gives. */
  lemma OneReasonFits(c: LoopContext, e: LoopEvent, p: LoopPolicy, now: Option<nat>, delta: nat, a: LoopReason, b: LoopReason)
    requires ReasonFits(c, e, p, now, delta, a) && ReasonFits(c, e, p, now, delta, b)
    ensures a == b
  {
  }
}
