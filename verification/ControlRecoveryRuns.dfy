/** Recovery over whole histories: calls for different failure keys interleave, calls for one key do not, and a
    process may die between the claim of an attempt and its outcome, or after the transaction that ends a call and
    before its receipt is acted on. */
module ControlRecoveryRuns {
  import opened Common
  import opened ControlRecovery

  /** The store, the attempts whose actions are running, and history: how often the actions of a key were
      started and how many of the receipts that reached the caller told the operator. */
  datatype World = World(store: Store, flights: map<string, Flight>, chosen: map<string, Selection>,
                         starts: map<string, nat>, notices: map<string, nat>)

  /** A call that has chosen its response and not yet gone on; other keys' events may come in between. */
  datatype Selection = Selection(plan: Plan, response: Response, now: int)

  const FRESH := World(Store(map[], map[]), map[], map[], map[], map[])

  /** A receipt is not `delivered` when the process dies between its commit and the return. */
  datatype Event =
    | Call(plan: Plan, now: int, delivered: bool)        // run_recovery up to its claim, nothing in between
    | Outcome(key: string, script: Script, delivered: bool) // the claimed actions end
    | Crash(key: string)                                // the process dies before the outcome is written
    | Choose(plan: Plan, now: int)                      // run_recovery up to its choice of the response
    | Proceed(key: string, delivered: bool)             // and from there up to its claim
    | Record(key: string, reason: Reason, fingerprint: Option<string>, delivered: bool)

  function Tally(m: map<string, nat>, k: string): nat {
    if k in m then m[k] else 0
  }

  function Bump(m: map<string, nat>, k: string, up: bool): map<string, nat> {
    if up then m[k := Tally(m, k) + 1] else m
  }

  /** One call at a time per failure key, and under the name a refused key falls back to. */
  predicate Enabled(w: World, e: Event) {
    match e
    case Call(plan, now, _) => plan.key !in w.flights && SafeName(plan.key) !in w.flights && now >= 0
    case Outcome(key, _, _) => key in w.flights
    case Crash(key) => key in w.flights
    case Choose(plan, now) =>
      plan.key !in w.flights && now >= 0 && (plan.key in w.store.runs ==> Blocked(w.store.runs[plan.key], now).None?)
    case Proceed(key, _) => key in w.chosen && key !in w.flights && SafeName(key) !in w.flights
    case Record(key, _, _, _) => SafeName(key) !in w.flights
  }

  function Noticed(w: World, r: Receipt, delivered: bool): World {
    w.(notices := Bump(w.notices, r.key, r.notify && delivered))
  }

  /** The call is answered, or its actions start. */
  function After(w: World, key: string, s: Store, progress: Progress, delivered: bool): World {
    match progress
    case Answered(receipt) => Noticed(w.(store := s), receipt, delivered)
    case Started(flight) => w.(store := s, flights := w.flights[key := flight], starts := Bump(w.starts, key, true))
  }

  function Step(w: World, e: Event): World
    requires Enabled(w, e)
  {
    match e
    case Call(plan, now, delivered) =>
      var (s, progress) := Begin(w.store, plan, now);
      After(w.(chosen := w.chosen - {plan.key}), plan.key, s, progress, delivered)
    case Outcome(key, script, delivered) =>
      var flight := w.flights[key];
      var (s, receipt) := Finish(w.store, flight, Executed(flight.plan, script));
      Noticed(w.(store := s, flights := w.flights - {key}), receipt, delivered)
    case Crash(key) => w.(flights := w.flights - {key})
    case Choose(plan, now) =>
      var (s, chosen, response) := Choice(w.store, plan);
      w.(store := s, chosen := w.chosen[plan.key := Selection(chosen, response, now)])
    case Proceed(key, delivered) =>
      var Selection(plan, response, now) := w.chosen[key];
      var (s, progress) := Resumed(w.store, plan, response, now);
      After(w.(chosen := w.chosen - {key}), key, s, progress, delivered)
    case Record(key, reason, fingerprint, delivered) =>
      var (s, receipt) := Escalate(w.store, key, reason, fingerprint);
      Noticed(w.(store := s), receipt, delivered)
  }

  lemma BeginResumes(s: Store, plan: Plan, now: int)
    requires plan.key in s.runs ==> Blocked(s.runs[plan.key], now).None?
    ensures var (s1, chosen, response) := Choice(s, plan); Begin(s, plan, now) == Resumed(s1, chosen, response, now)
  {
  }

  /** A call that is not stopped is its choice and what follows, nothing in between. */
  lemma CallInOneGo(w: World, plan: Plan, now: int, delivered: bool)
    requires Enabled(w, Call(plan, now, delivered)) && Enabled(w, Choose(plan, now))
    ensures var w1 := Step(w, Choose(plan, now));
      Enabled(w1, Proceed(plan.key, delivered)) && Step(w1, Proceed(plan.key, delivered)) == Step(w, Call(plan, now, delivered))
  {
    BeginResumes(w.store, plan, now);
    var (_, chosen, response) := Choice(w.store, plan);
    assert w.chosen[plan.key := Selection(chosen, response, now)] - {plan.key} == w.chosen - {plan.key};
  }

  ghost predicate Legal(w: World, events: seq<Event>)
    decreases |events|
  {
    events == [] || (Enabled(w, events[0]) && Legal(Step(w, events[0]), events[1..]))
  }

  ghost function Final(w: World, events: seq<Event>): World
    requires Legal(w, events)
    decreases |events|
  {
    if events == [] then w else Final(Step(w, events[0]), events[1..])
  }

  // ---- one failure key at a time ---------------------------------------------------------------------

  /** All that concerns one failure key. */
  datatype Case = Case(run: Option<Run>, flight: Option<Flight>, starts: nat, notices: nat)

  function At(w: World, k: string): Case {
    Case(Lookup(w.store.runs, k), Lookup(w.flights, k), Tally(w.starts, k), Tally(w.notices, k))
  }

  function Most(a: int, b: int): int {
    if a >= b then a else b
  }

  predicate RunOk(r: Run) {
    && (r.emitted <==> r.status.NeedsOperator?)
    && (r.status.WaitingRecovery? ==> r.nextRetryAt.Some?)
    && (r.status.Retrying? ==> r.nextRetryAt.None?)
    && (r.status.Recovered? ==> r.nextRetryAt.None?)
  }

  /** Starts are the attempts on record, the operator is told at most once and not before the row says so, and
      running actions hold the row in RETRYING. `cap` bounds `max_attempts` of all calls for the key. */
  predicate CaseOk(k: string, c: Case, cap: int) {
    && c.starts == (if c.run.Some? then c.run.value.attempt else 0)
    && c.starts <= Most(1, cap)
    && (c.run.Some? ==> RunOk(c.run.value))
    && c.notices <= (if c.run.Some? && c.run.value.emitted then 1 else 0)
    && (c.flight.Some? ==>
          && c.flight.value.plan.key == k && c.flight.value.plan.maxAttempts <= cap
          && c.run.Some? && c.run.value.status.Retrying? && c.run.value.attempt == c.flight.value.attempt)
  }

  predicate RowOk(w: World, k: string, cap: int) {
    CaseOk(k, At(w, k), cap)
  }

  predicate ChosenOk(w: World, k: string, cap: int) {
    k in w.chosen ==> w.chosen[k].plan.key == k && w.chosen[k].plan.maxAttempts <= cap
  }

  predicate OkAt(w: World, k: string, cap: int) {
    RowOk(w, k, cap) && ChosenOk(w, k, cap)
  }

  predicate Within(e: Event, k: string, cap: int) {
    (e.Call? || e.Choose?) && e.plan.key == k ==> e.plan.maxAttempts <= cap
  }

  // ---- which keys a transaction touches --------------------------------------------------------------

  lemma ChoiceKeepsRuns(s: Store, plan: Plan)
    ensures var (s1, chosen, _) := Choice(s, plan);
      s1.runs == s.runs && chosen.key == plan.key && chosen.maxAttempts == plan.maxAttempts && chosen.backoff == plan.backoff
  {
  }

  lemma EscalateAt(s: Store, key: string, reason: Reason, fingerprint: Option<string>)
    ensures var (s1, receipt) := Escalate(s, key, reason, fingerprint);
      && (forall k :: k != SafeName(key) ==> Lookup(s1.runs, k) == Lookup(s.runs, k))
      && SafeName(key) in s1.runs && receipt.key == SafeName(key)
      && s1.runs[SafeName(key)].status.NeedsOperator? && s1.runs[SafeName(key)].emitted
      && s1.runs[SafeName(key)].attempt == (if SafeName(key) in s.runs then s.runs[SafeName(key)].attempt else 0)
      && (receipt.notify <==> (SafeName(key) !in s.runs || !s.runs[SafeName(key)].emitted)
                              && (fingerprint.Some? ==> !LessonOf(s, fingerprint.value).emitted))
  {
  }

  lemma ClaimAt(s: Store, plan: Plan, response: Response, now: int)
    ensures var (s1, progress) := Claim(s, plan, response, now);
      && (forall k :: k != plan.key ==> Lookup(s1.runs, k) == Lookup(s.runs, k))
      && (progress.Answered? ==> progress.receipt.key == plan.key)
  {
  }

  lemma FinishAt(s: Store, flight: Flight, x: Execution, k: string)
    requires k != flight.plan.key
    ensures Lookup(Finish(s, flight, x).0.runs, k) == Lookup(s.runs, k)
    ensures Finish(s, flight, x).1.key == flight.plan.key
  {
  }

  // ---- every event keeps the invariant ---------------------------------------------------------------

  lemma EscalateKeeps(w: World, key: string, reason: Reason, fingerprint: Option<string>, delivered: bool, k: string, cap: int)
    requires RowOk(w, k, cap) && SafeName(key) !in w.flights
    ensures var (s, receipt) := Escalate(w.store, key, reason, fingerprint);
      RowOk(Noticed(w.(store := s), receipt, delivered), k, cap)
  {
    EscalateAt(w.store, key, reason, fingerprint);
    assert SafeName(key) == k ==> At(w, k).flight.None?;
  }

  lemma ClaimExhausts(w: World, plan: Plan, response: Response, now: int, delivered: bool, cap: int)
    requires RowOk(w, plan.key, cap) && plan.key !in w.flights
    requires plan.key in w.store.runs && w.store.runs[plan.key].attempt + 1 > plan.maxAttempts
    ensures var (s, progress) := Claim(w.store, plan, response, now);
      RowOk(After(w, plan.key, s, progress, delivered), plan.key, cap)
  {
  }

  lemma ClaimStarts(w: World, plan: Plan, response: Response, now: int, delivered: bool, cap: int)
    requires RowOk(w, plan.key, cap) && plan.maxAttempts <= cap
    requires plan.key in w.store.runs ==>
      w.store.runs[plan.key].attempt + 1 <= plan.maxAttempts && !w.store.runs[plan.key].emitted
    ensures var (s, progress) := Claim(w.store, plan, response, now);
      RowOk(After(w, plan.key, s, progress, delivered), plan.key, cap)
  {
  }

  lemma ClaimKeeps(w: World, plan: Plan, response: Response, now: int, delivered: bool, cap: int)
    requires RowOk(w, plan.key, cap) && plan.key !in w.flights && plan.maxAttempts <= cap
    requires plan.key in w.store.runs ==> Blocked(w.store.runs[plan.key], 0).None? || w.store.runs[plan.key].status.WaitingRecovery?
    ensures var (s, progress) := Claim(w.store, plan, response, now);
      RowOk(After(w, plan.key, s, progress, delivered), plan.key, cap)
  {
    if plan.key in w.store.runs && w.store.runs[plan.key].attempt + 1 > plan.maxAttempts {
      ClaimExhausts(w, plan, response, now, delivered, cap);
    } else {
      ClaimStarts(w, plan, response, now, delivered, cap);
    }
  }

  lemma OtherCase(w: World, key: string, s: Store, progress: Progress, delivered: bool, k: string)
    requires k != key && Lookup(s.runs, k) == Lookup(w.store.runs, k) && (progress.Answered? ==> progress.receipt.key == key)
    ensures At(After(w, key, s, progress, delivered), k) == At(w, k)
  {
  }

  /** The claim transaction keeps every key's case. */
  lemma ClaimKeepsAll(w: World, plan: Plan, response: Response, now: int, delivered: bool, k: string, cap: int)
    requires RowOk(w, k, cap) && plan.key !in w.flights && (plan.key == k ==> plan.maxAttempts <= cap)
    requires plan.key in w.store.runs ==> Blocked(w.store.runs[plan.key], now).None?
    ensures var (s, progress) := Claim(w.store, plan, response, now);
      RowOk(After(w, plan.key, s, progress, delivered), k, cap)
  {
    var (s, progress) := Claim(w.store, plan, response, now);
    if k == plan.key {
      ClaimKeeps(w, plan, response, now, delivered, cap);
    } else {
      ClaimAt(w.store, plan, response, now);
      OtherCase(w, plan.key, s, progress, delivered, k);
    }
  }

  lemma SameCase(w: World, w1: World, k: string, cap: int)
    requires w1 == w.(store := w1.store, chosen := w1.chosen) && w1.store.runs == w.store.runs && RowOk(w, k, cap)
    ensures RowOk(w1, k, cap)
  {
    assert At(w1, k) == At(w, k);
  }

  function GivingUp(response: Response): Reason {
    if response.RepairTaskRequired? then RepairTaskNeeded else AdaptationsExhausted
  }

  lemma CallKeeps(w: World, plan: Plan, now: int, delivered: bool, k: string, cap: int)
    requires Enabled(w, Call(plan, now, delivered)) && RowOk(w, k, cap) && Within(Call(plan, now, delivered), k, cap)
    ensures RowOk(Step(w, Call(plan, now, delivered)), k, cap)
  {
    if plan.key in w.store.runs && Blocked(w.store.runs[plan.key], now).Some? {
      StoppedCallKeeps(w, plan, now, delivered, k, cap);
    } else {
      ChoiceKeepsRuns(w.store, plan);
      var (s1, chosen, response) := Choice(w.store, plan);
      var w1 := w.(store := s1, chosen := w.chosen - {plan.key});
      SameCase(w, w1, k, cap);
      if Hopeless(chosen, response) {
        EscalateKeeps(w1, plan.key, GivingUp(response), plan.fingerprint, delivered, k, cap);
      } else {
        ClaimKeepsAll(w1, chosen, response, now, delivered, k, cap);
      }
    }
  }

  lemma StoppedCallKeeps(w: World, plan: Plan, now: int, delivered: bool, k: string, cap: int)
    requires Enabled(w, Call(plan, now, delivered)) && RowOk(w, k, cap)
    requires plan.key in w.store.runs && Blocked(w.store.runs[plan.key], now).Some?
    ensures RowOk(Step(w, Call(plan, now, delivered)), k, cap)
  {
    assert At(Step(w, Call(plan, now, delivered)), k) == At(w, k);
  }

  lemma ChooseKeeps(w: World, plan: Plan, now: int, k: string, cap: int)
    requires Enabled(w, Choose(plan, now)) && RowOk(w, k, cap)
    ensures RowOk(Step(w, Choose(plan, now)), k, cap)
  {
    ChoiceKeepsRuns(w.store, plan);
  }

  lemma ProceedKeeps(w: World, key: string, delivered: bool, k: string, cap: int)
    requires Enabled(w, Proceed(key, delivered)) && RowOk(w, k, cap) && w.chosen[key].plan.key == key
    requires key == k ==> w.chosen[key].plan.maxAttempts <= cap
    ensures RowOk(Step(w, Proceed(key, delivered)), k, cap)
  {
    var Selection(plan, response, now) := w.chosen[key];
    var w1 := w.(chosen := w.chosen - {key});
    SameCase(w, w1, k, cap);
    if Hopeless(plan, response) {
      EscalateKeeps(w1, plan.key, GivingUp(response), plan.fingerprint, delivered, k, cap);
    } else if plan.key in w.store.runs && Blocked(w.store.runs[plan.key], now).Some? {
      assert At(Step(w, Proceed(key, delivered)), k) == At(w, k);
    } else {
      ClaimKeepsAll(w1, plan, response, now, delivered, k, cap);
    }
  }

  lemma OwnOutcomeKeeps(w: World, key: string, script: Script, delivered: bool, cap: int)
    requires Enabled(w, Outcome(key, script, delivered)) && RowOk(w, key, cap)
    ensures RowOk(Step(w, Outcome(key, script, delivered)), key, cap)
  {
  }

  lemma OutcomeKeeps(w: World, key: string, script: Script, delivered: bool, k: string, cap: int)
    requires Enabled(w, Outcome(key, script, delivered)) && RowOk(w, k, cap) && w.flights[key].plan.key == key
    ensures RowOk(Step(w, Outcome(key, script, delivered)), k, cap)
  {
    if k == key {
      OwnOutcomeKeeps(w, key, script, delivered, cap);
    } else {
      FinishAt(w.store, w.flights[key], Executed(w.flights[key].plan, script), k);
      assert At(Step(w, Outcome(key, script, delivered)), k) == At(w, k);
    }
  }

  ghost predicate Keyed(w: World) {
    (forall k :: k in w.flights ==> w.flights[k].plan.key == k) && forall k :: k in w.chosen ==> w.chosen[k].plan.key == k
  }

  lemma BeginKeyed(s: Store, plan: Plan, now: int)
    ensures Begin(s, plan, now).1.Started? ==> Begin(s, plan, now).1.flight.plan.key == plan.key
  {
    ChoiceKeepsRuns(s, plan);
  }

  lemma ResumedKeyed(s: Store, plan: Plan, response: Response, now: int)
    ensures Resumed(s, plan, response, now).1.Started? ==> Resumed(s, plan, response, now).1.flight.plan.key == plan.key
  {
  }

  lemma StepKeyed(w: World, e: Event)
    requires Enabled(w, e) && Keyed(w)
    ensures Keyed(Step(w, e))
  {
    if e.Call? {
      BeginKeyed(w.store, e.plan, e.now);
    } else if e.Choose? {
      ChoiceKeepsRuns(w.store, e.plan);
    } else if e.Proceed? {
      var Selection(plan, response, now) := w.chosen[e.key];
      ResumedKeyed(w.store, plan, response, now);
    }
  }

  lemma ChosenKeeps(w: World, e: Event, k: string, cap: int)
    requires Enabled(w, e) && ChosenOk(w, k, cap) && Within(e, k, cap)
    ensures ChosenOk(Step(w, e), k, cap)
  {
    match e
    case Choose(plan, _) => ChoiceKeepsRuns(w.store, plan);
    case _ => ChosenShrinks(w, e, k);
  }

  lemma ChosenShrinks(w: World, e: Event, k: string)
    requires Enabled(w, e) && !e.Choose?
    ensures k in Step(w, e).chosen ==> k in w.chosen && Step(w, e).chosen[k] == w.chosen[k]
  {
  }

  lemma StepKeeps(w: World, e: Event, k: string, cap: int)
    requires Enabled(w, e) && Keyed(w) && OkAt(w, k, cap) && Within(e, k, cap)
    ensures OkAt(Step(w, e), k, cap)
  {
    ChosenKeeps(w, e, k, cap);
    match e
    case Call(plan, now, delivered) => CallKeeps(w, plan, now, delivered, k, cap);
    case Outcome(key, script, delivered) => OutcomeKeeps(w, key, script, delivered, k, cap);
    case Crash(key) =>
    case Choose(plan, now) => ChooseKeeps(w, plan, now, k, cap);
    case Proceed(key, delivered) => ProceedKeeps(w, key, delivered, k, cap);
    case Record(key, reason, fingerprint, delivered) => EscalateKeeps(w, key, reason, fingerprint, delivered, k, cap);
  }

  // ---- histories -------------------------------------------------------------------------------------

  lemma {:induction false} RunKeeps(w: World, events: seq<Event>, k: string, cap: int)
    requires Legal(w, events) && Keyed(w) && OkAt(w, k, cap)
    requires forall i :: 0 <= i < |events| ==> Within(events[i], k, cap)
    ensures Keyed(Final(w, events)) && OkAt(Final(w, events), k, cap)
    decreases |events|
  {
    if events != [] {
      StepKeeps(w, events[0], k, cap);
      StepKeyed(w, events[0]);
      RunKeeps(Step(w, events[0]), events[1..], k, cap);
    }
  }

  /** Whatever crashes and whatever the clock does, the actions of a failure key start as often as its row
      counts attempts, and never more often than the largest `max_attempts` its calls gave. */
  lemma StartsBounded(events: seq<Event>, k: string, cap: int)
    requires Legal(FRESH, events) && cap >= 1
    requires forall i :: 0 <= i < |events| ==> Within(events[i], k, cap)
    ensures var w := Final(FRESH, events);
      && Tally(w.starts, k) == (if k in w.store.runs then w.store.runs[k].attempt else 0)
      && Tally(w.starts, k) <= cap
  {
    RunKeeps(FRESH, events, k, cap);
  }

  ghost predicate FromPacket(e: Event, k: string) {
    (e.Call? || e.Choose?) && e.plan.key == k ==> exists p: Packet :: BuildPlan(p) == Some(e.plan)
  }

  /** For plans built from packets that is five times. */
  lemma PacketStartsBounded(events: seq<Event>, k: string)
    requires Legal(FRESH, events)
    requires forall i :: 0 <= i < |events| ==> FromPacket(events[i], k)
    ensures Tally(Final(FRESH, events).starts, k) <= 5
  {
    forall i | 0 <= i < |events|
      ensures Within(events[i], k, 5)
    {
      assert FromPacket(events[i], k);
      if (events[i].Call? || events[i].Choose?) && events[i].plan.key == k {
        var p :| BuildPlan(p) == Some(events[i].plan);
        PacketPlans(p);
      }
    }
    StartsBounded(events, k, 5);
  }

  /** A plan that allows no attempt still starts once: a key without a row is claimed before the bound is
      looked at. So the bound is `max_attempts` exactly when that is positive. */
  lemma NoAttemptsStartsOnce(plan: Plan)
    requires plan.maxAttempts <= 0 && plan.fingerprint.None?
    ensures Enabled(FRESH, Call(plan, 0, true))
    ensures Tally(Step(FRESH, Call(plan, 0, true)).starts, plan.key) == 1 > plan.maxAttempts
  {
  }

  // ---- the operator ----------------------------------------------------------------------------------

  function MaxAttemptsOf(events: seq<Event>): int {
    if events == [] then 1
    else Most(if events[0].Call? || events[0].Choose? then events[0].plan.maxAttempts else 1, MaxAttemptsOf(events[1..]))
  }

  lemma {:induction false} MaxAttemptsBounds(events: seq<Event>, k: string)
    ensures MaxAttemptsOf(events) >= 1
    ensures forall i :: 0 <= i < |events| ==> Within(events[i], k, MaxAttemptsOf(events))
  {
    if events != [] {
      MaxAttemptsBounds(events[1..], k);
      forall i | 0 <= i < |events|
        ensures Within(events[i], k, MaxAttemptsOf(events))
      {
        if i > 0 {
          assert events[i] == events[1..][i - 1];
          assert Within(events[1..][i - 1], k, MaxAttemptsOf(events[1..]));
        }
      }
    }
  }

  lemma HistoryOk(events: seq<Event>, k: string)
    requires Legal(FRESH, events)
    ensures Keyed(Final(FRESH, events)) && OkAt(Final(FRESH, events), k, MaxAttemptsOf(events))
  {
    MaxAttemptsBounds(events, k);
    RunKeeps(FRESH, events, k, MaxAttemptsOf(events));
  }

  /** In every history at most one receipt of a failure key carries the operator notification, and none before
      the key's row is NEEDS_OPERATOR. */
  lemma OperatorToldOnce(events: seq<Event>, k: string)
    requires Legal(FRESH, events)
    ensures var w := Final(FRESH, events);
      && Tally(w.notices, k) <= 1
      && (Tally(w.notices, k) == 1 ==> k in w.store.runs && w.store.runs[k].status.NeedsOperator?)
  {
    HistoryOk(events, k);
  }

  /** The key's row says that the operator has it. */
  predicate Emitted(w: World, k: string) {
    k in w.store.runs && w.store.runs[k].emitted
  }

  /** The call ends with the operator because of what the lesson of its fingerprint says. */
  predicate GivesUp(w: World, plan: Plan) {
    var (_, chosen, response) := Choice(w.store, plan);
    Hopeless(chosen, response)
  }

  predicate Announced(s: Store, fingerprint: Option<string>) {
    fingerprint.Some? && LessonOf(s, fingerprint.value).emitted
  }

  /** The event ends with the operator by a lesson, and that lesson has been announced, under whichever key. */
  predicate Silenced(w: World, e: Event) {
    match e
    case Call(plan, _, _) => GivesUp(w, plan) && Announced(w.store, plan.fingerprint)
    case Proceed(key, _) =>
      key in w.chosen && Hopeless(w.chosen[key].plan, w.chosen[key].response) && Announced(w.store, w.chosen[key].plan.fingerprint)
    case Record(_, _, fingerprint, _) => Announced(w.store, fingerprint)
    case _ => false
  }

  predicate Delivered(e: Event) {
    match e
    case Call(_, _, delivered) => delivered
    case Proceed(_, delivered) => delivered
    case Outcome(_, _, delivered) => delivered
    case Record(_, _, _, delivered) => delivered
    case _ => true
  }

  ghost predicate Heard(w: World, e: Event) {
    Delivered(e) && !Silenced(w, e)
  }

  /** What an event must do for the key's notices and its row. */
  ghost predicate Tells(w: World, e: Event, v: World, k: string) {
    && (Emitted(v, k) <==> Emitted(w, k) || HandsOver(w, e, k))
    && Tally(v.notices, k) == Tally(w.notices, k) + if !Emitted(w, k) && HandsOver(w, e, k) && Heard(w, e) then 1 else 0
  }

  predicate Stopped(w: World, plan: Plan, now: int) {
    plan.key in w.store.runs && Blocked(w.store.runs[plan.key], now).Some?
  }

  predicate OutOfAttempts(w: World, plan: Plan) {
    plan.key in w.store.runs && w.store.runs[plan.key].attempt + 1 > plan.maxAttempts
  }

  /** When an event hands a key to the operator: an escalation is recorded for it; a call for it that is not stopped
      finds no response left or no attempt left; or the actions of its last attempt fail. */
  predicate HandsOver(w: World, e: Event, k: string) {
    match e
    case Call(plan, now, _) =>
      !Stopped(w, plan, now) && if GivesUp(w, plan) then SafeName(plan.key) == k else plan.key == k && OutOfAttempts(w, plan)
    case Proceed(key, _) =>
      key in w.chosen
      && var Selection(plan, response, now) := w.chosen[key];
         if Hopeless(plan, response) then SafeName(plan.key) == k
         else plan.key == k && !Stopped(w, plan, now) && OutOfAttempts(w, plan)
    case Outcome(key, script, _) =>
      key == k && key in w.flights
      && Executed(w.flights[key].plan, script).failure.Some? && w.flights[key].attempt >= w.flights[key].plan.maxAttempts
    case Record(key, _, _, _) => SafeName(key) == k
    case _ => false
  }

  lemma EscalateTells(w: World, w1: World, e: Event, key: string, reason: Reason, fingerprint: Option<string>, k: string)
    requires w1.store.runs == w.store.runs && w1.notices == w.notices
    requires Silenced(w, e) <==> Announced(w1.store, fingerprint)
    requires HandsOver(w, e, k) <==> SafeName(key) == k
    ensures var (s, receipt) := Escalate(w1.store, key, reason, fingerprint);
      Tells(w, e, Noticed(w1.(store := s), receipt, Delivered(e)), k)
  {
    EscalateAt(w1.store, key, reason, fingerprint);
    if k != SafeName(key) {
      assert Lookup(Escalate(w1.store, key, reason, fingerprint).0.runs, k) == Lookup(w1.store.runs, k);
    }
  }

  lemma ClaimTells(w: World, w1: World, e: Event, plan: Plan, response: Response, now: int, k: string)
    requires w1.store.runs == w.store.runs && w1.notices == w.notices && !Silenced(w, e)
    requires HandsOver(w, e, k) <==> plan.key == k && OutOfAttempts(w, plan)
    requires plan.key in w.store.runs ==> !w.store.runs[plan.key].emitted
    ensures var (s, progress) := Claim(w1.store, plan, response, now);
      Tells(w, e, After(w1, plan.key, s, progress, Delivered(e)), k)
  {
    ClaimAt(w1.store, plan, response, now);
    if k != plan.key {
      assert Lookup(Claim(w1.store, plan, response, now).0.runs, k) == Lookup(w1.store.runs, k);
    }
  }

  lemma CallTells(w: World, plan: Plan, now: int, delivered: bool, k: string, cap: int)
    requires Enabled(w, Call(plan, now, delivered)) && OkAt(w, plan.key, cap)
    ensures Tells(w, Call(plan, now, delivered), Step(w, Call(plan, now, delivered)), k)
  {
    if !Stopped(w, plan, now) {
      ChoiceKeepsRuns(w.store, plan);
      var e := Call(plan, now, delivered);
      var (s1, chosen, response) := Choice(w.store, plan);
      var w1 := w.(store := s1, chosen := w.chosen - {plan.key});
      if Hopeless(chosen, response) {
        assert Announced(s1, plan.fingerprint) == Announced(w.store, plan.fingerprint);
        EscalateTells(w, w1, e, plan.key, GivingUp(response),
                      plan.fingerprint, k);
      } else {
        ClaimTells(w, w1, e, chosen, response, now, k);
      }
    }
  }

  lemma ProceedTells(w: World, key: string, delivered: bool, k: string, cap: int)
    requires Enabled(w, Proceed(key, delivered)) && OkAt(w, key, cap) && w.chosen[key].plan.key == key
    ensures Tells(w, Proceed(key, delivered), Step(w, Proceed(key, delivered)), k)
  {
    var e := Proceed(key, delivered);
    var Selection(plan, response, now) := w.chosen[key];
    var w1 := w.(chosen := w.chosen - {key});
    if Hopeless(plan, response) {
      EscalateTells(w, w1, e, plan.key, GivingUp(response),
                    plan.fingerprint, k);
    } else if !Stopped(w, plan, now) {
      ClaimTells(w, w1, e, plan, response, now, k);
    }
  }

  lemma OutcomeTells(w: World, key: string, script: Script, delivered: bool, k: string)
    requires Enabled(w, Outcome(key, script, delivered)) && w.flights[key].plan.key == key && key in w.store.runs
    requires w.store.runs[key].emitted <==> w.store.runs[key].status.NeedsOperator?
    ensures Tells(w, Outcome(key, script, delivered), Step(w, Outcome(key, script, delivered)), k)
  {
    if k != key {
      FinishAt(w.store, w.flights[key], Executed(w.flights[key].plan, script), k);
    }
  }

  ghost predicate AllOk(w: World, cap: int) {
    forall k: string :: OkAt(w, k, cap)
  }

  lemma StepTells(w: World, e: Event, k: string, cap: int)
    requires Enabled(w, e) && Keyed(w) && AllOk(w, cap)
    ensures Tells(w, e, Step(w, e), k)
  {
    match e
    case Call(plan, now, delivered) =>
      assert OkAt(w, plan.key, cap);
      CallTells(w, plan, now, delivered, k, cap);
    case Outcome(key, script, delivered) =>
      assert OkAt(w, key, cap);
      OutcomeTells(w, key, script, delivered, k);
    case Crash(key) =>
    case Choose(plan, _) => ChoiceKeepsRuns(w.store, plan);
    case Proceed(key, delivered) =>
      assert OkAt(w, key, cap);
      ProceedTells(w, key, delivered, k, cap);
    case Record(key, reason, fingerprint, _) => EscalateTells(w, w, e, key, reason, fingerprint, k);
  }

  /** The first event that hands the key to the operator, and the world before it, if there is one. */
  ghost function Escalation(w: World, events: seq<Event>, k: string): Option<(World, Event)>
    requires Legal(w, events)
    decreases |events|
  {
    if events == [] then None
    else if HandsOver(w, events[0], k) then Some((w, events[0]))
    else Escalation(Step(w, events[0]), events[1..], k)
  }

  lemma AllKeep(w: World, e: Event, cap: int)
    requires Enabled(w, e) && Keyed(w) && AllOk(w, cap) && forall k :: Within(e, k, cap)
    ensures AllOk(Step(w, e), cap)
  {
    forall k: string
      ensures OkAt(Step(w, e), k, cap)
    {
      assert OkAt(w, k, cap) && Within(e, k, cap);
      StepKeeps(w, e, k, cap);
    }
  }

  /** Once handed over a key stays so, and nothing more is announced for it. */
  lemma {:induction false} EmittedRun(w: World, events: seq<Event>, k: string, cap: int)
    requires Legal(w, events) && Keyed(w) && AllOk(w, cap) && Emitted(w, k)
    requires forall i, x :: 0 <= i < |events| ==> Within(events[i], x, cap)
    ensures Emitted(Final(w, events), k) && Tally(Final(w, events).notices, k) == Tally(w.notices, k)
    decreases |events|
  {
    if events != [] {
      StepTells(w, events[0], k, cap);
      AllKeep(w, events[0], cap);
      StepKeyed(w, events[0]);
      EmittedRun(Step(w, events[0]), events[1..], k, cap);
    }
  }

  lemma {:induction false} ToldRun(w: World, events: seq<Event>, k: string, cap: int)
    requires Legal(w, events) && Keyed(w) && AllOk(w, cap) && !Emitted(w, k)
    requires forall i, x :: 0 <= i < |events| ==> Within(events[i], x, cap)
    ensures var v, told := Final(w, events), Escalation(w, events, k);
      && (Emitted(v, k) <==> told.Some?)
      && Tally(v.notices, k) == Tally(w.notices, k) + if told.Some? && Heard(told.value.0, told.value.1) then 1 else 0
    decreases |events|
  {
    if events != [] {
      StepTells(w, events[0], k, cap);
      AllKeep(w, events[0], cap);
      StepKeyed(w, events[0]);
      if HandsOver(w, events[0], k) {
        EmittedRun(Step(w, events[0]), events[1..], k, cap);
      } else {
        ToldRun(Step(w, events[0]), events[1..], k, cap);
      }
    }
  }

  /** In every history a key is in NEEDS_OPERATOR exactly if an escalation was recorded for it, a call for it found no
      response or no attempt left, or its last attempt failed; and the operator has its notice exactly if the receipt
      of the first such event was delivered and that event was not silenced by its lesson. */
  lemma ToldExactly(events: seq<Event>, k: string)
    requires Legal(FRESH, events)
    ensures var w, told := Final(FRESH, events), Escalation(FRESH, events, k);
      && (k in w.store.runs && w.store.runs[k].status.NeedsOperator? <==> told.Some?)
      && Tally(w.notices, k) == if told.Some? && Heard(told.value.0, told.value.1) then 1 else 0
  {
    var cap := MaxAttemptsOf(events);
    forall i, x | 0 <= i < |events|
      ensures Within(events[i], x, cap)
    {
      MaxAttemptsBounds(events, x);
    }
    assert AllOk(FRESH, cap);
    ToldRun(FRESH, events, k, cap);
    HistoryOk(events, k);
  }

  /** Two keys with one fingerprint: the second goes to the operator unannounced, and no later event announces it. */
  lemma SharedFingerprintSilences(a: string, b: string, reason: Reason, fingerprint: string, later: seq<Event>)
    requires SafeKey(a) && SafeKey(b) && a != b
    requires var events := [Record(a, reason, Some(fingerprint), true), Record(b, reason, Some(fingerprint), true)] + later;
      Legal(FRESH, events)
    ensures var w := Final(FRESH, [Record(a, reason, Some(fingerprint), true), Record(b, reason, Some(fingerprint), true)] + later);
      b in w.store.runs && w.store.runs[b].status.NeedsOperator? && Tally(w.notices, b) == 0
  {
    var first, second := Record(a, reason, Some(fingerprint), true), Record(b, reason, Some(fingerprint), true);
    var events := [first, second] + later;
    var w := Step(FRESH, first);
    assert events[1..] == [second] + later && events[1..][1..] == later;
    assert LessonOf(w.store, fingerprint).emitted && !Emitted(FRESH, b) && !Emitted(w, b);
    assert Emitted(Step(w, second), b) && Silenced(w, second);
    assert Escalation(FRESH, events, b) == Escalation(w, events[1..], b) == Some((w, second));
    ToldExactly(events, b);
  }

  /** A process that dies between the commit and the return loses the notice for good. */
  lemma LostReceiptSilences(k: string, reason: Reason, later: seq<Event>)
    requires SafeKey(k) && Legal(FRESH, [Record(k, reason, None, false)] + later)
    ensures var w := Final(FRESH, [Record(k, reason, None, false)] + later);
      k in w.store.runs && w.store.runs[k].status.NeedsOperator? && Tally(w.notices, k) == 0
  {
    var events := [Record(k, reason, None, false)] + later;
    assert Escalation(FRESH, events, k) == Some((FRESH, events[0]));
    ToldExactly(events, k);
  }

  // ---- what cannot be left ---------------------------------------------------------------------------

  lemma AfterStarts(w: World, key: string, s: Store, progress: Progress, delivered: bool, k: string)
    ensures var v := After(w, key, s, progress, delivered);
      v.store == s && Tally(v.starts, k) == Tally(w.starts, k) + if progress.Started? && key == k then 1 else 0
  {
  }

  lemma StoppedBegin(s: Store, plan: Plan, now: int, k: string)
    requires k in s.runs && (s.runs[k].status.NeedsOperator? || s.runs[k].status.Recovered?)
    ensures var (s1, progress) := Begin(s, plan, now);
      && k in s1.runs && (s1.runs[k].status.NeedsOperator? || s1.runs[k].status == s.runs[k].status)
      && (progress.Started? ==> progress.flight.plan.key == plan.key && plan.key != k)
  {
    if plan.key in s.runs && Blocked(s.runs[plan.key], now).Some? {
    } else {
      ChoiceKeepsRuns(s, plan);
      var (s1, chosen, response) := Choice(s, plan);
      EscalateWaits(s1, plan.key, RepairTaskNeeded, plan.fingerprint, k);
      EscalateWaits(s1, plan.key, AdaptationsExhausted, plan.fingerprint, k);
      ClaimAt(s1, chosen, response, now);
      assert Lookup(Claim(s1, chosen, response, now).0.runs, k) == Lookup(s.runs, k);
    }
  }

  lemma StoppedResumed(s: Store, plan: Plan, response: Response, now: int, k: string)
    requires k in s.runs && (s.runs[k].status.NeedsOperator? || s.runs[k].status.Recovered?)
    ensures var (s1, progress) := Resumed(s, plan, response, now);
      && k in s1.runs && (s1.runs[k].status.NeedsOperator? || s1.runs[k].status == s.runs[k].status)
      && (progress.Started? ==> progress.flight.plan.key == plan.key && plan.key != k)
  {
    EscalateWaits(s, plan.key, RepairTaskNeeded, plan.fingerprint, k);
    EscalateWaits(s, plan.key, AdaptationsExhausted, plan.fingerprint, k);
    ClaimAt(s, plan, response, now);
    if k != plan.key {
      assert Lookup(Claim(s, plan, response, now).0.runs, k) == Lookup(s.runs, k);
    }
  }

  /** No event starts the actions of a key whose row is terminal, or leaves it but for NEEDS_OPERATOR. */
  lemma StoppedStep(w: World, e: Event, k: string, cap: int)
    requires Enabled(w, e) && Keyed(w) && OkAt(w, k, cap)
    requires k in w.store.runs && (w.store.runs[k].status.NeedsOperator? || w.store.runs[k].status.Recovered?)
    ensures var v := Step(w, e);
      && k in v.store.runs && Tally(v.starts, k) == Tally(w.starts, k)
      && (v.store.runs[k].status.NeedsOperator? || v.store.runs[k].status == w.store.runs[k].status)
  {
    match e
    case Call(plan, now, delivered) =>
      StoppedBegin(w.store, plan, now, k);
      var (s, progress) := Begin(w.store, plan, now);
      AfterStarts(w.(chosen := w.chosen - {plan.key}), plan.key, s, progress, delivered, k);
    case Outcome(key, script, _) =>
      if k != key {
        FinishAt(w.store, w.flights[key], Executed(w.flights[key].plan, script), k);
      }
    case Crash(key) =>
    case Choose(plan, _) => ChoiceKeepsRuns(w.store, plan);
    case Proceed(key, delivered) =>
      var Selection(plan, response, now) := w.chosen[key];
      StoppedResumed(w.store, plan, response, now, k);
      var (s, progress) := Resumed(w.store, plan, response, now);
      AfterStarts(w.(chosen := w.chosen - {key}), key, s, progress, delivered, k);
    case Record(key, reason, fingerprint, _) => EscalateAt(w.store, key, reason, fingerprint);
  }

  /** NEEDS_OPERATOR is never left, RECOVERED only for NEEDS_OPERATOR, and neither starts actions again. */
  lemma {:induction false} TerminalStays(w: World, events: seq<Event>, k: string, cap: int)
    requires Legal(w, events) && Keyed(w) && OkAt(w, k, cap)
    requires forall i :: 0 <= i < |events| ==> Within(events[i], k, cap)
    requires k in w.store.runs && (w.store.runs[k].status.NeedsOperator? || w.store.runs[k].status.Recovered?)
    ensures var v := Final(w, events);
      && k in v.store.runs && Tally(v.starts, k) == Tally(w.starts, k)
      && (v.store.runs[k].status.NeedsOperator? || v.store.runs[k].status == w.store.runs[k].status)
    decreases |events|
  {
    if events != [] {
      StoppedStep(w, events[0], k, cap);
      StepKeeps(w, events[0], k, cap);
      StepKeyed(w, events[0]);
      TerminalStays(Step(w, events[0]), events[1..], k, cap);
    }
  }

  predicate Early(e: Event, k: string, t: int) {
    (e.Call? || e.Choose?) && e.plan.key == k ==> e.now < t
  }

  predicate Kept(before: Store, after: Store, k: string)
    requires k in before.runs
  {
    k in after.runs && (after.runs[k] == before.runs[k] || after.runs[k].status.NeedsOperator?)
  }

  lemma EscalateWaits(s: Store, key: string, reason: Reason, fingerprint: Option<string>, k: string)
    requires k in s.runs
    ensures Kept(s, Escalate(s, key, reason, fingerprint).0, k)
  {
    EscalateAt(s, key, reason, fingerprint);
    if k != SafeName(key) {
      assert Lookup(Escalate(s, key, reason, fingerprint).0.runs, k) == Lookup(s.runs, k);
    }
  }

  lemma BeginWaits(s: Store, plan: Plan, now: int, k: string, t: int)
    requires k in s.runs && s.runs[k].status.WaitingRecovery? && s.runs[k].nextRetryAt == Some(t)
    requires plan.key == k ==> now < t
    ensures Kept(s, Begin(s, plan, now).0, k)
    ensures plan.key == k ==> Begin(s, plan, now).1.Answered?
  {
    if plan.key in s.runs && Blocked(s.runs[plan.key], now).Some? {
    } else {
      ChoiceKeepsRuns(s, plan);
      var (s1, chosen, response) := Choice(s, plan);
      EscalateWaits(s1, plan.key, RepairTaskNeeded, plan.fingerprint, k);
      EscalateWaits(s1, plan.key, AdaptationsExhausted, plan.fingerprint, k);
      ClaimAt(s1, chosen, response, now);
      assert Lookup(Claim(s1, chosen, response, now).0.runs, k) == Lookup(s.runs, k);
    }
  }

  lemma ResumedWaits(s: Store, plan: Plan, response: Response, now: int, k: string)
    requires k in s.runs && plan.key != k
    ensures Kept(s, Resumed(s, plan, response, now).0, k)
    ensures Resumed(s, plan, response, now).1.Answered? || Resumed(s, plan, response, now).1.flight.plan.key == plan.key
  {
    EscalateWaits(s, plan.key, RepairTaskNeeded, plan.fingerprint, k);
    EscalateWaits(s, plan.key, AdaptationsExhausted, plan.fingerprint, k);
    ClaimAt(s, plan, response, now);
    assert Lookup(Claim(s, plan, response, now).0.runs, k) == Lookup(s.runs, k);
  }

  lemma FinishWaits(s: Store, flight: Flight, x: Execution, k: string)
    requires k in s.runs && k != flight.plan.key
    ensures Kept(s, Finish(s, flight, x).0, k)
  {
    FinishAt(s, flight, x, k);
    assert Lookup(Finish(s, flight, x).0.runs, k) == Lookup(s.runs, k);
  }

  /** Before its retry time a waiting key stays as it is unless it is handed to the operator. */
  lemma WaitingStep(w: World, e: Event, k: string, t: int, cap: int)
    requires Enabled(w, e) && Keyed(w) && OkAt(w, k, cap) && Early(e, k, t) && k !in w.chosen
    requires k in w.store.runs && w.store.runs[k].status.WaitingRecovery? && w.store.runs[k].nextRetryAt == Some(t)
    ensures Kept(w.store, Step(w, e).store, k) && Tally(Step(w, e).starts, k) == Tally(w.starts, k)
    ensures k !in Step(w, e).chosen
  {
    match e
    case Call(plan, now, _) => BeginWaits(w.store, plan, now, k, t);
    case Outcome(key, script, _) =>
      assert At(w, k).flight.None?;
      FinishWaits(w.store, w.flights[key], Executed(w.flights[key].plan, script), k);
    case Crash(key) =>
    case Choose(plan, _) => ChoiceKeepsRuns(w.store, plan);
    case Proceed(key, _) =>
      var Selection(plan, response, now) := w.chosen[key];
      ResumedWaits(w.store, plan, response, now, k);
    case Record(key, reason, fingerprint, _) => EscalateWaits(w.store, key, reason, fingerprint, k);
  }

  /** After a failed attempt that leaves retries, no call before `now + backoff * attempt` starts the key's
      actions, however many there are and whatever else happens in between. */
  lemma {:induction false} BackoffHonoured(w: World, events: seq<Event>, k: string, t: int, cap: int)
    requires Legal(w, events) && Keyed(w) && OkAt(w, k, cap) && k !in w.chosen
    requires forall i :: 0 <= i < |events| ==> Within(events[i], k, cap) && Early(events[i], k, t)
    requires k in w.store.runs && w.store.runs[k].status.WaitingRecovery? && w.store.runs[k].nextRetryAt == Some(t)
    ensures Tally(Final(w, events).starts, k) == Tally(w.starts, k)
    decreases |events|
  {
    if events != [] {
      WaitingStep(w, events[0], k, t, cap);
      StepKeeps(w, events[0], k, cap);
      StepKeyed(w, events[0]);
      if Step(w, events[0]).store.runs[k].status.NeedsOperator? {
        TerminalStays(Step(w, events[0]), events[1..], k, cap);
      } else {
        BackoffHonoured(Step(w, events[0]), events[1..], k, t, cap);
      }
    }
  }

  /** Where that retry time comes from. */
  lemma FailureWaits(w: World, key: string, script: Script, delivered: bool, cap: int)
    requires Enabled(w, Outcome(key, script, delivered)) && Keyed(w) && OkAt(w, key, cap)
    ensures var flight, row := w.flights[key], Step(w, Outcome(key, script, delivered)).store.runs[key];
      if Executed(flight.plan, script).failure.None? then row.status.Recovered?
      else if flight.attempt >= flight.plan.maxAttempts then row.status.NeedsOperator?
      else row.status.WaitingRecovery? && row.nextRetryAt == Some(flight.now + flight.plan.backoff * flight.attempt)
  {
  }

  /** A crash is not a failed attempt: the next call may start again in the same second. */
  lemma CrashSkipsBackoff(plan: Plan)
    requires plan.maxAttempts >= 2 && plan.fingerprint.None?
    ensures var w := Step(Step(FRESH, Call(plan, 0, true)), Crash(plan.key));
      Enabled(w, Call(plan, 0, true)) && Tally(Step(w, Call(plan, 0, true)).starts, plan.key) == 2
  {
    var w := Step(Step(FRESH, Call(plan, 0, true)), Crash(plan.key));
    assert w.store.runs[plan.key].attempt == 1;
  }

  // ---- every due call makes progress -----------------------------------------------------------------

  predicate Terminal(w: World, k: string) {
    k in w.store.runs && (w.store.runs[k].status.NeedsOperator? || w.store.runs[k].status.Recovered?)
  }

  predicate DueCall(w: World, e: Event, k: string) {
    e.Call? && e.plan.key == k
    && (k in w.store.runs ==> Blocked(w.store.runs[k], e.now) != Some(BackoffActive))
  }

  /** A due call on a safe key ends the case, or uses an attempt. With `StartsBounded`: after as many due calls as
      there are attempts, and one more, the key is recovered or with the operator. */
  lemma DueCallProgress(w: World, e: Event, k: string, cap: int)
    requires Enabled(w, e) && Keyed(w) && OkAt(w, k, cap) && SafeKey(k) && DueCall(w, e, k)
    ensures Terminal(Step(w, e), k) || Tally(Step(w, e).starts, k) == Tally(w.starts, k) + 1
  {
    var Call(plan, now, delivered) := e;
    var (s, progress) := Begin(w.store, plan, now);
    AfterStarts(w.(chosen := w.chosen - {k}), k, s, progress, delivered, k);
    if k in w.store.runs && Blocked(w.store.runs[k], now).Some? {
    } else {
      BeginEnds(w.store, plan, now);
    }
  }

  /** A call that is not stopped starts, or leaves its row in NEEDS_OPERATOR. */
  lemma BeginEnds(s: Store, plan: Plan, now: int)
    requires SafeKey(plan.key) && (plan.key in s.runs ==> Blocked(s.runs[plan.key], now).None?)
    ensures var (s1, progress) := Begin(s, plan, now);
      progress.Started? || (plan.key in s1.runs && s1.runs[plan.key].status.NeedsOperator?)
  {
    ChoiceKeepsRuns(s, plan);
    var (s1, chosen, response) := Choice(s, plan);
    EscalateAt(s1, plan.key, GivingUp(response), plan.fingerprint);
  }

  lemma StartsGrow(w: World, e: Event, k: string)
    requires Enabled(w, e)
    ensures Tally(Step(w, e).starts, k) >= Tally(w.starts, k)
  {
  }

  /** How many calls for the key in this history were due. */
  ghost function DueCalls(w: World, events: seq<Event>, k: string): nat
    requires Legal(w, events)
    decreases |events|
  {
    if events == [] then 0
    else (if DueCall(w, events[0], k) then 1 else 0) + DueCalls(Step(w, events[0]), events[1..], k)
  }

  lemma {:induction false} ProgressRun(w: World, events: seq<Event>, k: string, cap: int)
    requires Legal(w, events) && Keyed(w) && OkAt(w, k, cap) && SafeKey(k)
    requires forall i :: 0 <= i < |events| ==> Within(events[i], k, cap)
    ensures Terminal(Final(w, events), k) || Tally(Final(w, events).starts, k) >= Tally(w.starts, k) + DueCalls(w, events, k)
    decreases |events|
  {
    if events != [] {
      var w1 := Step(w, events[0]);
      StepKeeps(w, events[0], k, cap);
      StepKeyed(w, events[0]);
      StartsGrow(w, events[0], k);
      if Terminal(w1, k) {
        TerminalStays(w1, events[1..], k, cap);
      } else {
        if DueCall(w, events[0], k) {
          DueCallProgress(w, events[0], k, cap);
        }
        ProgressRun(w1, events[1..], k, cap);
      }
    }
  }

  /** Recovery cannot go on for ever: more due calls than the largest `max_attempts` end the case, crashes or
      not. */
  lemma RecoveryEnds(events: seq<Event>, k: string, cap: int)
    requires Legal(FRESH, events) && SafeKey(k) && cap >= 1
    requires forall i :: 0 <= i < |events| ==> Within(events[i], k, cap)
    requires DueCalls(FRESH, events, k) > cap
    ensures Terminal(Final(FRESH, events), k)
  {
    ProgressRun(FRESH, events, k, cap);
    StartsBounded(events, k, cap);
  }
}
