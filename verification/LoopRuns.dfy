/** A loop's committed log: what its counters say about it, and when it must have halted. */
module LoopRuns {
  import opened Common
  import opened LoopController

  /** What a caller hands to one engine step. */
  datatype Input = Input(event: LoopEvent, now: Option<nat>, delta: nat)

  function Advance(c: LoopContext, p: LoopPolicy, i: Input): LoopResult {
    AdvanceLoop(c, i.event, p, i.now, i.delta)
  }

  /** The context after the last entry of a log that started at `c`. */
  function Final(c: LoopContext, log: seq<LoopResult>): LoopContext {
    if log == [] then c else log[|log| - 1].current
  }

  /** The log is the sequential fold of the transition function over the inputs. */
  ghost predicate Fold(c: LoopContext, p: LoopPolicy, inputs: seq<Input>, log: seq<LoopResult>) {
    && |log| == |inputs|
    && forall i :: 0 <= i < |log| ==> log[i] == Advance(Final(c, log[..i]), p, inputs[i])
  }

  /** Any transition function; the controller's is `Machine(p)`. */
  type Transition = (LoopContext, Input) -> LoopResult

  function Machine(p: LoopPolicy): Transition {
    (c, i) => Advance(c, p, i)
  }

  ghost predicate FoldOf(f: Transition, c: LoopContext, inputs: seq<Input>, log: seq<LoopResult>) {
    && |log| == |inputs|
    && forall i :: 0 <= i < |log| ==> log[i] == f(Final(c, log[..i]), inputs[i])
  }

  lemma FoldOfMachine(c: LoopContext, p: LoopPolicy, inputs: seq<Input>, log: seq<LoopResult>)
    ensures FoldOf(Machine(p), c, inputs, log) <==> Fold(c, p, inputs, log)
  {
    assert forall d, i :: Machine(p)(d, i) == Advance(d, p, i);
  }

  lemma FoldPrefix(c: LoopContext, p: LoopPolicy, inputs: seq<Input>, log: seq<LoopResult>, n: nat)
    requires Fold(c, p, inputs, log) && n <= |log|
    ensures Fold(c, p, inputs[..n], log[..n])
  {
    forall i | 0 <= i < n
      ensures log[..n][i] == Advance(Final(c, log[..n][..i]), p, inputs[..n][i])
    {
      assert log[..n][..i] == log[..i];
    }
  }

  lemma FoldExtend(c: LoopContext, p: LoopPolicy, inputs: seq<Input>, log: seq<LoopResult>, i: Input)
    requires Fold(c, p, inputs, log)
    ensures Fold(c, p, inputs + [i], log + [Advance(Final(c, log), p, i)])
  {
    var more := log + [Advance(Final(c, log), p, i)];
    forall k | 0 <= k < |more|
      ensures more[k] == Advance(Final(c, more[..k]), p, (inputs + [i])[k])
    {
      assert more[..k] == log[..k];
      if k == |log| { assert log[..k] == log; }
    }
  }

  // ---- statistics of a log, read off its entries -------------------------------------------------

  predicate Succeeded(r: LoopResult) {
    r.accepted && r.reason == StepSucceeded
  }

  predicate Failed(r: LoopResult) {
    r.accepted && r.reason in {StepFailedRetry, RetryLimitExhausted}
  }

  /** The steps that ran, whatever came of them. */
  function Ran(log: seq<LoopResult>): nat {
    if log == [] then 0
    else Ran(log[..|log| - 1]) + if Succeeded(log[|log| - 1]) || Failed(log[|log| - 1]) then 1 else 0
  }

  /** The failures since the last success, on top of `base` if there was none. Nothing else ends a streak. */
  function FailureStreak(base: nat, log: seq<LoopResult>): nat {
    if log == [] then base
    else
      var r := log[|log| - 1];
      if Succeeded(r) then 0
      else FailureStreak(base, log[..|log| - 1]) + if Failed(r) then 1 else 0
  }

  function Charged(inputs: seq<Input>, log: seq<LoopResult>): nat
    requires |inputs| == |log|
  {
    if log == [] then 0
    else Charged(inputs[..|log| - 1], log[..|log| - 1]) + if log[|log| - 1].accepted then inputs[|log| - 1].delta else 0
  }

  function Accepted(log: seq<LoopResult>): nat {
    if log == [] then 0
    else Accepted(log[..|log| - 1]) + if log[|log| - 1].accepted then 1 else 0
  }

  lemma StepCounts(c: LoopContext, p: LoopPolicy, i: Input)
    ensures var r := Advance(c, p, i);
            && r.current.iterations == c.iterations + (if Succeeded(r) || Failed(r) then 1 else 0)
            && r.current.retries == (if Succeeded(r) then 0 else c.retries + if Failed(r) then 1 else 0)
            && r.current.budgetUsed == c.budgetUsed + (if r.accepted then i.delta else 0)
            && r.current.deadlineAt == c.deadlineAt && r.current.leaseExpiresAt == c.leaseExpiresAt
  {
  }

  /** The counters of the head are exact statistics of the log: iterations count the steps that ran, retries
      the failures since the last success, and the budget adds up the accepted charges. */
  lemma {:induction false} CountersAreStatistics(c: LoopContext, p: LoopPolicy, inputs: seq<Input>, log: seq<LoopResult>)
    requires Fold(c, p, inputs, log)
    ensures Final(c, log).iterations == c.iterations + Ran(log)
    ensures Final(c, log).retries == FailureStreak(c.retries, log)
    ensures Final(c, log).budgetUsed == c.budgetUsed + Charged(inputs, log)
    ensures Final(c, log).deadlineAt == c.deadlineAt && Final(c, log).leaseExpiresAt == c.leaseExpiresAt
  {
    if log != [] {
      var n := |log| - 1;
      FoldPrefix(c, p, inputs, log, n);
      CountersAreStatistics(c, p, inputs[..n], log[..n]);
      StepCounts(Final(c, log[..n]), p, inputs[n]);
    }
  }

  /** Every entry of a log that starts within the policy stays within it. */
  lemma {:induction false} RunsStayWithinPolicy(c: LoopContext, p: LoopPolicy, inputs: seq<Input>, log: seq<LoopResult>)
    requires Fold(c, p, inputs, log) && ValidPolicy(p) && WithinPolicy(c, p)
    ensures WithinPolicy(Final(c, log), p)
  {
    if log != [] {
      var n := |log| - 1;
      FoldPrefix(c, p, inputs, log, n);
      RunsStayWithinPolicy(c, p, inputs[..n], log[..n]);
      var i := inputs[n];
      AdvanceKeepsWithinPolicy(Final(c, log[..n]), i.event, p, i.now, i.delta);
    }
  }

  /** Once overspent at a checkpoint, no later entry runs again. */
  lemma {:induction false} OverspentNeverRuns(c: LoopContext, p: LoopPolicy, inputs: seq<Input>, log: seq<LoopResult>)
    requires Fold(c, p, inputs, log) && ValidPolicy(p) && Overspent(c, p)
    ensures Final(c, log).state !in {CREATED, READY, RUNNING}
    ensures Overspent(Final(c, log), p)
  {
    if log != [] {
      var n := |log| - 1;
      FoldPrefix(c, p, inputs, log, n);
      OverspentNeverRuns(c, p, inputs[..n], log[..n]);
      var i := inputs[n];
      OverspentStays(Final(c, log[..n]), i.event, p, i.now, i.delta);
    }
  }

  // ---- halting -----------------------------------------------------------------------------------

  predicate EachCharged(inputs: seq<Input>) {
    forall i :: i in inputs ==> i.delta >= 1
  }

  lemma {:induction false} ChargedCoversAccepted(inputs: seq<Input>, log: seq<LoopResult>)
    requires |inputs| == |log| && EachCharged(inputs)
    ensures Charged(inputs, log) >= Accepted(log)
  {
    if log != [] {
      var n := |log| - 1;
      assert forall i :: i in inputs[..n] ==> i in inputs;
      ChargedCoversAccepted(inputs[..n], log[..n]);
      assert inputs[n] in inputs;
    }
  }

  /** An accepted step that took the loop over budget, or found it there, and was not a lease step. */
  predicate OverBudget(r: LoopResult, p: LoopPolicy, i: Input) {
    r.accepted && r.current.budgetUsed > p.maxBudgetUnits && !LeaseStep(r.previous, i.event, i.now)
  }

  ghost predicate WentOverBudget(p: LoopPolicy, inputs: seq<Input>, log: seq<LoopResult>)
    requires |inputs| == |log|
  {
    exists k :: 0 <= k < |log| && OverBudget(log[k], p, inputs[k])
  }

  lemma WentOverBudgetLast(p: LoopPolicy, inputs: seq<Input>, log: seq<LoopResult>)
    requires |inputs| == |log| && log != []
    ensures var n := |log| - 1;
            WentOverBudget(p, inputs, log) <==> WentOverBudget(p, inputs[..n], log[..n]) || OverBudget(log[n], p, inputs[n])
  {
    var n := |log| - 1;
    if WentOverBudget(p, inputs[..n], log[..n]) {
      var k :| 0 <= k < n && OverBudget(log[..n][k], p, inputs[..n][k]);
      assert OverBudget(log[k], p, inputs[k]);
    }
    if WentOverBudget(p, inputs, log) && !OverBudget(log[n], p, inputs[n]) {
      var k :| 0 <= k < |log| && OverBudget(log[k], p, inputs[k]);
      assert OverBudget(log[..n][k], p, inputs[..n][k]);
    }
  }

  lemma HaltsStep(before: LoopContext, p: LoopPolicy, i: Input)
    requires ValidPolicy(p)
    ensures var r := Advance(before, p, i);
            && (before.state in HALTED ==> r.current == before && !OverBudget(r, p, i))
            && (before.state !in HALTED ==>
                  (OverBudget(r, p, i) <==> r.current.state in HALTED && r.current.budgetUsed > p.maxBudgetUnits))
  {
    if Advance(before, p, i).accepted && before.budgetUsed + i.delta > p.maxBudgetUnits {
      OverBudgetHalts(before, i.event, p, i.now, i.delta);
    }
  }

  predicate HaltedOverBudget(c: LoopContext, p: LoopPolicy) {
    c.state in HALTED && c.budgetUsed > p.maxBudgetUnits
  }

  /** A loop is halted over budget exactly when some accepted step over budget was not a lease step. */
  lemma {:induction false} HaltsExactly(c: LoopContext, p: LoopPolicy, inputs: seq<Input>, log: seq<LoopResult>)
    requires Fold(c, p, inputs, log) && ValidPolicy(p) && c.budgetUsed <= p.maxBudgetUnits
    ensures HaltedOverBudget(Final(c, log), p) <==> WentOverBudget(p, inputs, log)
  {
    if log != [] {
      var n := |log| - 1;
      FoldPrefix(c, p, inputs, log, n);
      HaltsExactly(c, p, inputs[..n], log[..n]);
      WentOverBudgetLast(p, inputs, log);
      HaltsStep(Final(c, log[..n]), p, inputs[n]);
    }
  }

  lemma StepWithinBudget(before: LoopContext, p: LoopPolicy, i: Input)
    requires ValidPolicy(p) && before.leaseExpiresAt.None? && i.event != LEASE_EXPIRED
    requires before.state in HALTED || before.budgetUsed <= p.maxBudgetUnits
    ensures var after := Advance(before, p, i).current; after.state in HALTED || after.budgetUsed <= p.maxBudgetUnits
  {
    HaltsStep(before, p, i);
  }

  /** Without lease steps, a loop that has not halted is within its budget. */
  lemma {:induction false} RunsWithinBudget(c: LoopContext, p: LoopPolicy, inputs: seq<Input>, log: seq<LoopResult>)
    requires Fold(c, p, inputs, log) && ValidPolicy(p) && c.budgetUsed <= p.maxBudgetUnits
    requires c.leaseExpiresAt.None? && forall i :: i in inputs ==> i.event != LEASE_EXPIRED
    ensures Final(c, log).state in HALTED || Final(c, log).budgetUsed <= p.maxBudgetUnits
  {
    if log != [] {
      var n := |log| - 1;
      FoldPrefix(c, p, inputs, log, n);
      assert forall i :: i in inputs[..n] ==> i in inputs;
      RunsWithinBudget(c, p, inputs[..n], log[..n]);
      CountersAreStatistics(c, p, inputs[..n], log[..n]);
      assert inputs[n] in inputs;
      StepWithinBudget(Final(c, log[..n]), p, inputs[n]);
    }
  }

  /** With a charge on every step and no lease steps, a loop that has accepted more steps than it had budget
      units left is halted. */
  lemma ChargedRunsHalt(c: LoopContext, p: LoopPolicy, inputs: seq<Input>, log: seq<LoopResult>)
    requires Fold(c, p, inputs, log) && ValidPolicy(p) && c.budgetUsed <= p.maxBudgetUnits && EachCharged(inputs)
    requires c.leaseExpiresAt.None? && forall i :: i in inputs ==> i.event != LEASE_EXPIRED
    requires Accepted(log) > p.maxBudgetUnits - c.budgetUsed
    ensures Final(c, log).state in HALTED
  {
    CountersAreStatistics(c, p, inputs, log);
    ChargedCoversAccepted(inputs, log);
    RunsWithinBudget(c, p, inputs, log);
  }

  lemma LeaseExpiresAgain(c: LoopContext, p: LoopPolicy)
    requires c.state == CHECKPOINTED
    ensures var r := Advance(c, p, Input(LEASE_EXPIRED, None, 1)); r.accepted && r.current == c.(budgetUsed := c.budgetUsed + 1)
  {
  }

  lemma FinalExtend(c: LoopContext, log: seq<LoopResult>, r: LoopResult)
    ensures Final(c, log + [r]) == r.current && Accepted(log + [r]) == Accepted(log) + if r.accepted then 1 else 0
  {
    assert (log + [r])[..|log|] == log;
  }

  /** Without that restriction it need not be: a checkpointed loop accepts LEASE_EXPIRED events for ever. */
  lemma {:induction false} LeaseEventsNeverHalt(c: LoopContext, p: LoopPolicy, n: nat)
    returns (inputs: seq<Input>, log: seq<LoopResult>)
    requires c.state == CHECKPOINTED
    ensures Fold(c, p, inputs, log) && EachCharged(inputs)
    ensures Accepted(log) == n && Final(c, log) == c.(budgetUsed := c.budgetUsed + n)
  {
    inputs, log := [], [];
    if n > 0 {
      inputs, log := LeaseEventsNeverHalt(c, p, n - 1);
      var i := Input(LEASE_EXPIRED, None, 1);
      FoldExtend(c, p, inputs, log, i);
      var r := Advance(Final(c, log), p, i);
      LeaseExpiresAgain(Final(c, log), p);
      FinalExtend(c, log, r);
      inputs, log := inputs + [i], log + [r];
    }
  }

  // ---- how a loop ends -----------------------------------------------------------------------------

  /** The last step that was accepted: where it was taken, and the input. */
  function LastStep(inputs: seq<Input>, log: seq<LoopResult>): Option<(LoopContext, Input)>
    requires |inputs| == |log|
  {
    if log == [] then None
    else
      var n := |log| - 1;
      if log[n].accepted then Some((log[n].previous, inputs[n])) else LastStep(inputs[..n], log[..n])
  }

  lemma {:induction false} LastStepLeads(c: LoopContext, p: LoopPolicy, inputs: seq<Input>, log: seq<LoopResult>)
    requires Fold(c, p, inputs, log)
    ensures match LastStep(inputs, log)
            case None => Final(c, log) == c
            case Some((d, i)) => Advance(d, p, i).accepted && Final(c, log) == Advance(d, p, i).current
  {
    if log != [] {
      var n := |log| - 1;
      FoldPrefix(c, p, inputs, log, n);
      LastStepLeads(c, p, inputs[..n], log[..n]);
      AcceptedExactly(Final(c, log[..n]), inputs[n].event, p, inputs[n].now, inputs[n].delta);
    }
  }

  /** How a loop stands is decided by the last step it accepted: it is done exactly if that step completed it out of RUNNING,
      cancelled exactly if it was CANCEL, and so on by cause. */
  lemma EndsExactly(c: LoopContext, p: LoopPolicy, inputs: seq<Input>, log: seq<LoopResult>)
    requires Fold(c, p, inputs, log) && ValidPolicy(p) && LastStep(inputs, log).Some?
    ensures var (d, i) := LastStep(inputs, log).value;
      var state := Final(c, log).state;
      && Live(d)
      && (state == DONE <==> Completes(d, i.event, p, i.now, i.delta))
      && (state == CANCELLED <==> i.event == CANCEL)
      && (state == HUMAN_REVIEW <==> i.event == REVIEW_REQUIRED)
      && (state == BLOCKED <==> Blocks(d, i.event, p, i.now, i.delta))
      && (state == NEEDS_OPERATOR <==> Escalates(d, i.event, p, i.now, i.delta))
      && (state == CHECKPOINTED <==> Suspends(d, i.event, p, i.now, i.delta))
  {
    LastStepLeads(c, p, inputs, log);
    var (d, i) := LastStep(inputs, log).value;
    AcceptedExactly(d, i.event, p, i.now, i.delta);
    LeadsExactly(d, i.event, p, i.now, i.delta);
  }

  lemma HaltedTakesNothing(c: LoopContext, p: LoopPolicy, i: Input)
    requires !Live(c)
    ensures var r := Advance(c, p, i); !r.accepted && r.current == c && r.reason == HaltedState
  {
  }

  lemma EntryAfterEntry(c: LoopContext, p: LoopPolicy, inputs: seq<Input>, log: seq<LoopResult>, j: nat)
    requires Fold(c, p, inputs, log) && 0 < j < |log|
    ensures log[j] == Advance(log[j - 1].current, p, inputs[j])
  {
    assert Final(c, log[..j]) == log[j - 1].current;
  }

  /** A loop that is halted takes nothing after the step that halted it. */
  lemma {:induction false} HaltedIsLast(c: LoopContext, p: LoopPolicy, inputs: seq<Input>, log: seq<LoopResult>, k: nat, j: nat)
    requires Fold(c, p, inputs, log) && k <= j < |log| && !Live(log[k].current)
    ensures log[j].current == log[k].current
    ensures k < j ==> !log[j].accepted && log[j].reason == HaltedState
  {
    if k < j {
      HaltedIsLast(c, p, inputs, log, k, j - 1);
      EntryAfterEntry(c, p, inputs, log, j);
      HaltedTakesNothing(log[j - 1].current, p, inputs[j]);
    }
  }
}
