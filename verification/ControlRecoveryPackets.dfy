/** Recovery driven by packets: what each failure class asks for, and that a case is closed only when that was done. */
module ControlRecoveryPackets {
  import opened Common
  import opened ControlRecovery
  import opened ControlRecoveryRuns

  /** The calls a failure class asks for, in order and the reopening of the queue last, and its canaries. A case of an
      ambiguous result is the operator's. */
  function Duties(c: FailureClass): Option<(seq<Action>, seq<Action>)> {
    match c
    case CodegenRuntimeUnhealthy => Some(([CodegenRuntimeRecover, QueueReactivate], [CodegenReadOnlyCanary]))
    case RegisteredCheckoutStaleOrDirty =>
      Some(([RegisteredCheckoutRecover, QueueReactivate], [RegisteredCheckoutFreshnessCanary]))
    case LongLivedPollerStale => Some(([LongLivedPollerReload, QueueReactivate], [RegisteredCheckoutFreshnessCanary]))
    case ExecutorServiceNotRunning => Some(([ExecutorServicePreflight, QueueReactivate], [CodegenReadOnlyCanary]))
    case GithubActionsLaneUnavailable => Some(([IssueRunnerContinue, QueueReactivate], [CodegenReadOnlyCanary]))
    case QueueLabelStateStuck => Some(([QueueReactivate], [RegisteredCheckoutFreshnessCanary]))
    case CanaryFailedAfterRecovery => Some(([], []))
    case QueueIdleWithEligibleWork => Some(([QueueReactivate], []))
    case AmbiguousMutatingResult => None
  }

  /** The action calls of a plan, in the order they are made. */
  function Calls(plan: Plan): seq<Action> {
    plan.actions + if plan.reactivation.Some? then [plan.reactivation.value] else []
  }

  /** The plan asks for what its class asks for; where there are canaries the reopening waits for them. */
  predicate Serves(plan: Plan) {
    && Duties(plan.failureClass) == Some((Calls(plan), plan.canaries))
    && (plan.reactivation.Some? <==> |Calls(plan)| == 2)
  }

  /** A number the packet gives is taken if it is in bounds. */
  predicate Taken(given: Option<int>, maximum: int, default: int, value: int) {
    value == if given.Some? && 1 <= given.value <= maximum then given.value else default
  }

  /** For every packet: whether it has a plan, and what the plan asks for. */
  lemma PacketAsks(p: Packet)
    ensures BuildPlan(p).Some? <==> SafeKey(p.key)
    ensures BuildPlan(p).Some? ==>
      var plan := BuildPlan(p).value;
      && plan.failureClass == p.failureClass && plan.key == p.key
      && plan.responses != [] && plan.response == plan.responses[0]
      && Taken(p.maxAttempts, 5, 3, plan.maxAttempts) && Taken(p.backoff, 3600, 60, plan.backoff)
      && (if p.failureClass.AmbiguousMutatingResult? then Calls(plan) == [] && plan.canaries == [] && plan.responses == [AskOperator]
          else Serves(plan) && |plan.responses| == 1 && plan.responses[0] in {Response.ControlRecovery, QueueReplenish})
      && (plan.fingerprint == if p.fingerprinted || p.failureClass.QueueIdleWithEligibleWork? || p.failureClass.AmbiguousMutatingResult?
                              then Some(p.fingerprint) else None)
  {
    if SafeKey(p.key) && Duties(p.failureClass).Some? {
      assert Calls(BuildPlan(p).value) == Duties(p.failureClass).value.0;
    }
  }

  ghost predicate Built(plan: Plan) {
    exists p: Packet :: BuildPlan(p) == Some(plan)
  }

  /** Nothing is left but the operator, or the plan still serves its class. */
  predicate Sound(plan: Plan, response: Response) {
    Hopeless(plan, response) || Serves(plan)
  }

  /** Whatever the lessons say: the response chosen for a packet's plan either gives the case to the operator or leaves all
      that its class asks for, and the rest of the plan is the packet's. */
  lemma ChoiceServes(s: Store, plan: Plan)
    requires Built(plan)
    ensures var (s1, chosen, response) := Choice(s, plan);
      && Sound(chosen, response) && s1.runs == s.runs
      && chosen.failureClass == plan.failureClass && chosen.key == plan.key && chosen.fingerprint == plan.fingerprint
      && chosen.maxAttempts == plan.maxAttempts && chosen.backoff == plan.backoff
    ensures plan.failureClass.AmbiguousMutatingResult? ==> Hopeless(Choice(s, plan).1, Choice(s, plan).2)
  {
    var p: Packet :| BuildPlan(p) == Some(plan);
    PacketAsks(p);
    if plan.fingerprint.Some? {
      OnlyOrOperator(LessonOf(s, plan.fingerprint.value), plan.responses);
    }
  }

  lemma OnlyOrOperator(lesson: Lesson, responses: seq<Response>)
    requires |responses| == 1
    ensures Selected(lesson, responses).1 in {responses[0], AskOperator}
  {
    FirstUntriedExact(lesson.attempts, responses);
  }

  /** Every action and canary of the class was reported done, call by call. */
  ghost predicate DutiesDone(c: FailureClass, script: Script)
    requires Duties(c).Some?
  {
    var (calls, canaries) := Duties(c).value;
    && (forall i: nat :: i < |calls| ==> script.report(i).Done?)
    && (canaries != [] ==> script.canary.Some? && forall i: nat :: i < |canaries| ==> script.canary.value(i).Passed?)
  }

  lemma DutiesRegistered(c: FailureClass)
    requires Duties(c).Some?
    ensures Registered(Duties(c).value.0) && Registered(Duties(c).value.1)
  {
  }

  lemma CallsDone(plan: Plan, script: Script)
    requires Registered(Calls(plan))
    ensures ActionsDone(plan, script) && Reactivated(plan, script) <==>
            forall i: nat :: i < |Calls(plan)| ==> script.report(i).Done?
  {
    var calls := Calls(plan);
    assert forall i: nat :: i < |plan.actions| ==> calls[i] == plan.actions[i];
    if plan.reactivation.Some? {
      assert calls[|plan.actions|] == plan.reactivation.value;
    }
  }

  lemma CanariesDone(plan: Plan, script: Script)
    requires Registered(plan.canaries)
    ensures CanariesPassed(plan, script) <==>
            (plan.canaries != [] ==>
               script.canary.Some? && forall i: nat :: i < |plan.canaries| ==> script.canary.value(i).Passed?)
  {
  }

  lemma ListedWhenDone(plan: Plan, script: Script)
    requires Executed(plan, script).failure.None?
    ensures Executed(plan, script).actions == Calls(plan) && Executed(plan, script).canaries == plan.canaries
  {
    ActionsFromExact(plan.actions, script.report, 0);
    assert plan.actions[0..] == plan.actions;
    if script.canary.Some? {
      CanariesFromExact(plan.canaries, script.canary.value, 0);
      assert plan.canaries[0..] == plan.canaries;
    }
  }

  lemma ExecutedServes(plan: Plan, script: Script)
    requires Serves(plan)
    ensures Executed(plan, script).failure.None? <==> DutiesDone(plan.failureClass, script)
    ensures Executed(plan, script).failure.None? ==>
      (Executed(plan, script).actions, Executed(plan, script).canaries) == Duties(plan.failureClass).value
  {
    VerifiedExactly(plan, script);
    DutiesRegistered(plan.failureClass);
    CallsDone(plan, script);
    CanariesDone(plan, script);
    if Executed(plan, script).failure.None? {
      ListedWhenDone(plan, script);
    }
  }

  // ---- histories -------------------------------------------------------------------------------------

  /** All that is under way for the key serves its class. */
  predicate UnderWay(w: World, k: string) {
    && (k in w.chosen ==> Sound(w.chosen[k].plan, w.chosen[k].response) && w.chosen[k].plan.key == k)
    && (k in w.flights ==> Serves(w.flights[k].plan) && w.flights[k].plan.key == k)
  }

  lemma BeginServes(s: Store, plan: Plan, now: int)
    requires Built(plan)
    ensures Begin(s, plan, now).1.Started? ==> Serves(Begin(s, plan, now).1.flight.plan)
  {
    ChoiceServes(s, plan);
  }

  lemma AfterFlight(w: World, key: string, s: Store, progress: Progress, delivered: bool, k: string)
    requires UnderWay(w, k) && (key == k && progress.Started? ==> Serves(progress.flight.plan) && progress.flight.plan.key == k)
    ensures UnderWay(After(w, key, s, progress, delivered), k)
  {
  }

  lemma ProceedServes(w: World, key: string, delivered: bool, k: string)
    requires Enabled(w, Proceed(key, delivered)) && UnderWay(w, k)
    ensures UnderWay(Step(w, Proceed(key, delivered)), k)
  {
    var Selection(plan, response, now) := w.chosen[key];
    var (s, progress) := Resumed(w.store, plan, response, now);
    if key == k { ResumedKeyed(w.store, plan, response, now); }
    AfterFlight(w.(chosen := w.chosen - {key}), key, s, progress, delivered, k);
  }

  lemma CallServes(w: World, plan: Plan, now: int, delivered: bool, k: string)
    requires Enabled(w, Call(plan, now, delivered)) && UnderWay(w, k) && FromPacket(Call(plan, now, delivered), k)
    ensures UnderWay(Step(w, Call(plan, now, delivered)), k)
  {
    var (s, progress) := Begin(w.store, plan, now);
    if plan.key == k {
      BeginServes(w.store, plan, now);
      BeginKeyed(w.store, plan, now);
    }
    AfterFlight(w.(chosen := w.chosen - {plan.key}), plan.key, s, progress, delivered, k);
  }

  lemma UnderWayStep(w: World, e: Event, k: string)
    requires Enabled(w, e) && UnderWay(w, k) && FromPacket(e, k)
    ensures UnderWay(Step(w, e), k)
  {
    match e
    case Call(plan, now, delivered) => CallServes(w, plan, now, delivered, k);
    case Choose(plan, _) => if plan.key == k { ChoiceServes(w.store, plan); }
    case Proceed(key, delivered) => ProceedServes(w, key, delivered, k);
    case _ =>
  }

  ghost predicate Recovered(w: World, k: string) {
    k in w.store.runs && w.store.runs[k].status.Recovered?
  }

  /** The event ends the case: all that its class asks for was done, and the row says so. */
  ghost predicate Closes(w: World, e: Event, k: string) {
    && e.Outcome? && e.key == k && k in w.flights
    && var c := w.flights[k].plan.failureClass;
       Duties(c).Some? && DutiesDone(c, e.script)
  }

  /** The row of a closed case names the class, and as executed exactly what it asks for. */
  predicate ClosedRow(row: Run) {
    && row.failureClass.Some? && Duties(row.failureClass.value).Some?
    && (row.evidence.actions, row.evidence.canaries) == Duties(row.failureClass.value).value
  }

  lemma OwnOutcomeCloses(w: World, key: string, script: Script, delivered: bool, cap: int)
    requires Enabled(w, Outcome(key, script, delivered)) && UnderWay(w, key) && OkAt(w, key, cap)
    ensures var v := Step(w, Outcome(key, script, delivered));
      && (Recovered(v, key) <==> Closes(w, Outcome(key, script, delivered), key))
      && (Recovered(v, key) ==> ClosedRow(v.store.runs[key]))
  {
    ExecutedServes(w.flights[key].plan, script);
  }

  lemma BeginRow(s: Store, plan: Plan, now: int, k: string)
    ensures var (s1, _) := Begin(s, plan, now);
      k in s1.runs && s1.runs[k].status.Recovered? ==> k in s.runs && s1.runs[k] == s.runs[k]
  {
    ChoiceKeepsRuns(s, plan);
    var (s1, chosen, response) := Choice(s, plan);
    EscalateRow(s1, plan.key, RepairTaskNeeded, plan.fingerprint, k);
    EscalateRow(s1, plan.key, AdaptationsExhausted, plan.fingerprint, k);
    ClaimRow(s1, chosen, response, now, k);
  }

  lemma ResumedRow(s: Store, plan: Plan, response: Response, now: int, k: string)
    ensures var (s1, _) := Resumed(s, plan, response, now);
      k in s1.runs && s1.runs[k].status.Recovered? ==> k in s.runs && s1.runs[k] == s.runs[k]
  {
    EscalateRow(s, plan.key, RepairTaskNeeded, plan.fingerprint, k);
    EscalateRow(s, plan.key, AdaptationsExhausted, plan.fingerprint, k);
    ClaimRow(s, plan, response, now, k);
  }

  lemma EscalateRow(s: Store, key: string, reason: Reason, fingerprint: Option<string>, k: string)
    ensures var s1 := Escalate(s, key, reason, fingerprint).0;
      k in s1.runs && s1.runs[k].status.Recovered? ==> k in s.runs && s1.runs[k] == s.runs[k]
  {
  }

  lemma ClaimRow(s: Store, plan: Plan, response: Response, now: int, k: string)
    ensures var s1 := Claim(s, plan, response, now).0;
      k in s1.runs && s1.runs[k].status.Recovered? ==> k in s.runs && s1.runs[k] == s.runs[k]
  {
  }

  /** No other event makes a row RECOVERED or changes one that is. */
  lemma RecoveredStep(w: World, e: Event, k: string)
    requires Enabled(w, e) && Keyed(w) && Recovered(Step(w, e), k) && !(e.Outcome? && e.key == k)
    ensures Recovered(w, k) && Step(w, e).store.runs[k] == w.store.runs[k]
  {
    match e
    case Call(plan, now, _) => BeginRow(w.store, plan, now, k);
    case Outcome(key, script, _) => FinishAt(w.store, w.flights[key], Executed(w.flights[key].plan, script), k);
      assert Lookup(Step(w, e).store.runs, k) == Lookup(w.store.runs, k);
    case Crash(_) =>
    case Choose(plan, _) => ChoiceKeepsRuns(w.store, plan);
    case Proceed(key, _) => ResumedRow(w.store, w.chosen[key].plan, w.chosen[key].response, w.chosen[key].now, k);
    case Record(key, reason, fingerprint, _) => EscalateRow(w.store, key, reason, fingerprint, k);
  }

  /** Somewhere in the history an event closed the case. */
  ghost predicate ClosedIn(w: World, events: seq<Event>, k: string)
    requires Legal(w, events)
    decreases |events|
  {
    events != [] && (Closes(w, events[0], k) || ClosedIn(Step(w, events[0]), events[1..], k))
  }

  lemma {:induction false} RecoveredRun(w: World, events: seq<Event>, k: string, cap: int)
    requires Legal(w, events) && Keyed(w) && OkAt(w, k, cap) && UnderWay(w, k)
    requires forall i :: 0 <= i < |events| ==> FromPacket(events[i], k) && Within(events[i], k, cap)
    requires Recovered(Final(w, events), k)
    requires Recovered(w, k) ==> ClosedRow(w.store.runs[k])
    ensures Recovered(w, k) || ClosedIn(w, events, k)
    ensures ClosedRow(Final(w, events).store.runs[k])
    decreases |events|
  {
    if events != [] {
      var e, v := events[0], Step(w, events[0]);
      StepKeeps(w, e, k, cap);
      StepKeyed(w, e);
      UnderWayStep(w, e, k);
      if Recovered(v, k) {
        if e.Outcome? && e.key == k {
          OwnOutcomeCloses(w, k, e.script, e.delivered, cap);
        } else {
          RecoveredStep(w, e, k);
        }
      }
      RecoveredRun(v, events[1..], k, cap);
    }
  }

  /** In every history in which packets drive a key, whatever other keys do and wherever processes die: the key is RECOVERED
      only if at some point every action and canary its class names was reported done, the reopening of the queue
      included, and its row lists exactly these. */
  lemma RecoveredMeansDone(events: seq<Event>, k: string)
    requires Legal(FRESH, events) && forall i :: 0 <= i < |events| ==> FromPacket(events[i], k)
    requires Recovered(Final(FRESH, events), k)
    ensures ClosedIn(FRESH, events, k) && ClosedRow(Final(FRESH, events).store.runs[k])
  {
    var cap := MaxAttemptsOf(events);
    forall i | 0 <= i < |events|
      ensures Within(events[i], k, cap)
    {
      MaxAttemptsBounds(events, k);
    }
    RecoveredRun(FRESH, events, k, cap);
  }
}
