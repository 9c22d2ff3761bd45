/** Many workers stepping the same runs. Loading a run and appending the computed result are separate
    transactions, so the workers' steps interleave in any order. */
module LoopWorkers {
  import opened Common
  import opened LoopController
  import opened LoopRuns
  import opened LoopStore

  /** What a worker holds between its load and its append. */
  datatype Held = Held(run: StoredRun, input: Input, at: nat)

  /** How a run started, and what the winning steps were: history no step reads. */
  datatype History = History(initial: LoopContext, inputs: seq<Input>, log: seq<LoopResult>, times: seq<nat>)

  datatype System = System(tables: Tables, held: map<nat, Held>, history: map<string, History>)

  const IDLE_SYSTEM := System(Tables(map[], map[]), map[], map[])

  datatype Action =
    | Create(runId: string, taskId: string, context: LoopContext, at: nat)
    | Load(worker: nat, runId: string, input: Input, at: nat)
    | Append(worker: nat)

  /** One transaction, and the error it raises if any; an erring transaction changes no table. */
  function Step(f: Transition, s: System, a: Action): (System, Option<StoreError>) {
    match a
    case Create(runId, taskId, context, at) =>
      var t := Created(s.tables, runId, taskId, context, at);
      if t.Failure? then (s, Some(t.error))
      else (s.(tables := t.value, history := s.history[runId := History(context, [], [], [])]), None)
    case Load(worker, runId, input, at) =>
      var run := Loaded(s.tables, runId);
      if run.Failure? then (s, Some(run.error))
      else (s.(held := s.held[worker := Held(run.value, input, at)]), None)
    case Append(worker) =>
      if worker !in s.held then (s, None)
      else
        var h := s.held[worker];
        var r := f(h.run.context, h.input);
        var t := Appended(s.tables, h.run.runId, h.run.version, r, h.at);
        var freed := s.(held := s.held - {worker});
        if t.Failure? then (freed, Some(t.error))
        else if h.run.runId !in s.history then (freed.(tables := t.value), None)
        else
          var y := s.history[h.run.runId];
          (freed.(tables := t.value,
                  history := s.history[h.run.runId := y.(inputs := y.inputs + [h.input], log := y.log + [r], times := y.times + [h.at])]),
           None)
  }

  function After(f: Transition, actions: seq<Action>): System {
    if actions == [] then IDLE_SYSTEM else Step(f, After(f, actions[..|actions| - 1]), actions[|actions| - 1]).0
  }

  /** A result names the context it was computed from. */
  ghost predicate Honest(f: Transition) {
    forall c, i :: f(c, i).previous == c
  }

  lemma MachineIsHonest(p: LoopPolicy)
    ensures Honest(Machine(p))
  {
    assert forall c, i :: Machine(p)(c, i) == Advance(c, p, i);
  }

  /** A run's rows are the record of a sequential fold over its history. */
  ghost predicate RunOk(f: Transition, t: Tables, runId: string, y: History)
    requires runId in t.runs
  {
    FoldOf(f, y.initial, y.inputs, y.log) && RowsOk(t, runId, y)
  }

  ghost predicate RowsOk(t: Tables, runId: string, y: History)
    requires runId in t.runs
  {
    && |y.times| == |y.log|
    && t.runs[runId].version == |y.log|
    && t.runs[runId].context == Final(y.initial, y.log)
    && (forall v: nat :: (runId, v) in t.events <==> 1 <= v <= |y.log|)
    && (forall i :: 0 <= i < |y.log| ==> (runId, i + 1) in t.events && t.events[(runId, i + 1)] == EventOf(y.log[i], y.times[i]))
  }

  /** What a worker holds is what the run's head was at that version. */
  ghost predicate HeldOk(s: System, h: Held) {
    && h.run.runId in s.tables.runs && h.run.runId in s.history
    && h.run.version <= |s.history[h.run.runId].log|
    && h.run.context == Final(s.history[h.run.runId].initial, s.history[h.run.runId].log[..h.run.version])
  }

  ghost predicate Inv(f: Transition, s: System) {
    && Honest(f)
    && s.history.Keys == s.tables.runs.Keys
    && (forall k :: k in s.tables.events ==> k.0 in s.tables.runs)
    && (forall r :: r in s.history ==> RunOk(f, s.tables, r, s.history[r]))
    && (forall w :: w in s.held ==> HeldOk(s, s.held[w]))
  }

  /** On a good system a version match already implies everything the append checks next. */
  lemma AppendOnlyConflicts(f: Transition, s: System, worker: nat)
    requires Inv(f, s) && worker in s.held
    ensures var h := s.held[worker];
            var t := Appended(s.tables, h.run.runId, h.run.version, f(h.run.context, h.input), h.at);
            t.Failure? <==> s.tables.runs[h.run.runId].version != h.run.version
    ensures Step(f, s, Append(worker)).1 in {None, Some(VersionConflict)}
  {
    var h := s.held[worker];
    var y := s.history[h.run.runId];
    assert RunOk(f, s.tables, h.run.runId, y);
    if s.tables.runs[h.run.runId].version == h.run.version {
      assert y.log[..h.run.version] == y.log;
    }
  }

  lemma CreateKeeps(f: Transition, s: System, a: Action)
    requires Inv(f, s) && a.Create?
    ensures Inv(f, Step(f, s, a).0)
  {
    var v := Step(f, s, a).0;
    if a.runId !in s.tables.runs {
      assert FoldOf(f, a.context, [], []);
      forall r | r in v.history
        ensures RunOk(f, v.tables, r, v.history[r])
      {
        if r != a.runId { assert RunOk(f, s.tables, r, s.history[r]); }
      }
      forall w | w in v.held
        ensures HeldOk(v, v.held[w])
      {
        assert HeldOk(s, s.held[w]);
      }
    }
  }

  lemma LoadKeeps(f: Transition, s: System, a: Action)
    requires Inv(f, s) && a.Load?
    ensures Inv(f, Step(f, s, a).0)
  {
    if a.runId in s.tables.runs {
      var y := s.history[a.runId];
      assert RunOk(f, s.tables, a.runId, y);
      assert y.log[..|y.log|] == y.log;
    }
    forall w | w in s.held
      ensures HeldOk(Step(f, s, a).0, s.held[w])
    {
    }
  }

  lemma FoldOfExtend(f: Transition, c: LoopContext, inputs: seq<Input>, log: seq<LoopResult>, i: Input)
    requires FoldOf(f, c, inputs, log)
    ensures FoldOf(f, c, inputs + [i], log + [f(Final(c, log), i)])
  {
    var more := log + [f(Final(c, log), i)];
    forall k | 0 <= k < |more|
      ensures more[k] == f(Final(c, more[..k]), (inputs + [i])[k])
    {
      assert more[..k] == log[..k];
      if k == |log| { assert log[..k] == log; }
    }
  }

  /** What an append that wins makes of `s`: one more event and a new head for one run, nothing else. */
  ghost predicate Won(f: Transition, s: System, worker: nat, v: System)
    requires worker in s.held
  {
    var h, r := s.held[worker], s.held[worker].run.runId;
    && r in s.history && r in s.tables.runs
    && v.history.Keys == s.history.Keys && v.tables.runs.Keys == s.tables.runs.Keys && v.held == s.held - {worker}
    && (forall x :: x in s.history && x in s.tables.runs && x != r ==> v.history[x] == s.history[x] && v.tables.runs[x] == s.tables.runs[x])
    && v.history[r] == HistoryWith(s.history[r], f(h.run.context, h.input), h.input, h.at)
    && v.tables.events == s.tables.events[(r, h.run.version + 1) := EventOf(f(h.run.context, h.input), h.at)]
    && v.tables.runs[r].version == h.run.version + 1
    && v.tables.runs[r].context == f(h.run.context, h.input).current
  }

  function HistoryWith(y: History, e: LoopResult, input: Input, at: nat): History {
    y.(inputs := y.inputs + [input], log := y.log + [e], times := y.times + [at])
  }

  lemma AppendWon(f: Transition, s: System, worker: nat, t: Tables)
    requires worker in s.held
    requires var h := s.held[worker];
      && h.run.runId in s.history && h.run.runId in s.tables.runs
      && Appended(s.tables, h.run.runId, h.run.version, f(h.run.context, h.input), h.at) == Success(t)
    ensures Won(f, s, worker, Step(f, s, Append(worker)).0)
  {
    var h := s.held[worker];
    var e := f(h.run.context, h.input);
    var v := s.(held := s.held - {worker}, tables := t,
                history := s.history[h.run.runId := HistoryWith(s.history[h.run.runId], e, h.input, h.at)]);
    assert Step(f, s, Append(worker)).0 == v;
  }

  lemma AppendFrame(f: Transition, s: System, worker: nat)
    requires Inv(f, s) && worker in s.held
    requires s.tables.runs[s.held[worker].run.runId].version == s.held[worker].run.version
    ensures Won(f, s, worker, Step(f, s, Append(worker)).0)
  {
    var h := s.held[worker];
    AppendOnlyConflicts(f, s, worker);
    AppendWon(f, s, worker, Appended(s.tables, h.run.runId, h.run.version, f(h.run.context, h.input), h.at).value);
  }

  lemma RowsExtend(t: Tables, v: Tables, r: string, y: History, z: History, e: LoopResult, at: nat)
    requires r in t.runs && r in v.runs && RowsOk(t, r, y)
    requires z.initial == y.initial && z.log == y.log + [e] && z.times == y.times + [at]
    requires v.runs[r].version == |y.log| + 1 && v.runs[r].context == e.current
    requires v.events == t.events[(r, |y.log| + 1) := EventOf(e, at)]
    ensures RowsOk(v, r, z)
  {
    forall i | 0 <= i < |z.log|
      ensures (r, i + 1) in v.events && v.events[(r, i + 1)] == EventOf(z.log[i], z.times[i])
    {
      if i < |y.log| {
        assert (r, i + 1) in t.events;
        assert z.log[i] == y.log[i] && z.times[i] == y.times[i];
      }
    }
  }

  lemma AppendedRunOk(f: Transition, t: Tables, v: Tables, y: History, h: Held)
    requires var r := h.run.runId; r in t.runs && r in v.runs && RunOk(f, t, r, y) && h.run.version == |y.log|
    requires h.run.context == Final(y.initial, y.log)
    requires var r, e := h.run.runId, f(h.run.context, h.input);
      && v.runs[r].version == |y.log| + 1 && v.runs[r].context == e.current
      && v.events == t.events[(r, |y.log| + 1) := EventOf(e, h.at)]
    ensures RunOk(f, v, h.run.runId, HistoryWith(y, f(h.run.context, h.input), h.input, h.at))
  {
    var e := f(h.run.context, h.input);
    FoldOfExtend(f, y.initial, y.inputs, y.log, h.input);
    RowsExtend(t, v, h.run.runId, y, HistoryWith(y, e, h.input, h.at), e, h.at);
  }

  lemma WinnerRunOk(f: Transition, s: System, worker: nat, v: System)
    requires worker in s.held && Won(f, s, worker, v) && HeldOk(s, s.held[worker])
    requires var h := s.held[worker]; RunOk(f, s.tables, h.run.runId, s.history[h.run.runId]) && h.run.version == s.tables.runs[h.run.runId].version
    ensures var r := s.held[worker].run.runId; r in v.tables.runs && r in v.history && RunOk(f, v.tables, r, v.history[r])
  {
    var h := s.held[worker];
    var y := s.history[h.run.runId];
    assert y.log[..h.run.version] == y.log;
    AppendedRunOk(f, s.tables, v.tables, y, h);
  }

  lemma OtherRunOk(f: Transition, s: System, worker: nat, v: System, r: string)
    requires worker in s.held && Won(f, s, worker, v) && r != s.held[worker].run.runId
    requires r in s.history && r in s.tables.runs && RunOk(f, s.tables, r, s.history[r])
    ensures r in v.tables.runs && r in v.history && RunOk(f, v.tables, r, v.history[r])
  {
    forall v1: nat
      ensures (r, v1) in v.tables.events <==> (r, v1) in s.tables.events
    {
    }
  }

  /** A history that only grows still shows what the worker holds. */
  lemma HeldStays(s: System, v: System, g: Held)
    requires HeldOk(s, g) && g.run.runId in v.tables.runs && g.run.runId in v.history
    requires v.history[g.run.runId].initial == s.history[g.run.runId].initial
    requires s.history[g.run.runId].log <= v.history[g.run.runId].log
    ensures HeldOk(v, g)
  {
    var y, z := s.history[g.run.runId], v.history[g.run.runId];
    assert z.log[..g.run.version] == y.log[..g.run.version];
  }

  lemma HeldCarries(f: Transition, s: System, worker: nat, v: System, w: nat)
    requires worker in s.held && Won(f, s, worker, v) && w in s.held && HeldOk(s, s.held[w])
    ensures HeldOk(v, s.held[w])
  {
    HeldStays(s, v, s.held[w]);
  }

  lemma AppendKeeps(f: Transition, s: System, worker: nat)
    requires Inv(f, s)
    ensures Inv(f, Step(f, s, Append(worker)).0)
  {
    if worker in s.held {
      AppendOnlyConflicts(f, s, worker);
      if s.tables.runs[s.held[worker].run.runId].version == s.held[worker].run.version {
        AppendKeepsWinning(f, s, worker);
      }
    }
  }

  lemma WonKeeps(f: Transition, s: System, worker: nat, v: System)
    requires Inv(f, s) && worker in s.held && Won(f, s, worker, v)
    requires s.tables.runs[s.held[worker].run.runId].version == s.held[worker].run.version
    ensures Inv(f, v)
  {
    forall r | r in v.history
      ensures r in v.tables.runs && RunOk(f, v.tables, r, v.history[r])
    {
      assert RunOk(f, s.tables, r, s.history[r]);
      if r == s.held[worker].run.runId { WinnerRunOk(f, s, worker, v); } else { OtherRunOk(f, s, worker, v, r); }
    }
    forall w | w in v.held
      ensures HeldOk(v, v.held[w])
    {
      HeldCarries(f, s, worker, v, w);
    }
  }

  lemma AppendKeepsWinning(f: Transition, s: System, worker: nat)
    requires Inv(f, s) && worker in s.held
    requires s.tables.runs[s.held[worker].run.runId].version == s.held[worker].run.version
    ensures Inv(f, Step(f, s, Append(worker)).0)
  {
    AppendFrame(f, s, worker);
    WonKeeps(f, s, worker, Step(f, s, Append(worker)).0);
  }

  lemma {:induction false} Reachable(f: Transition, actions: seq<Action>)
    requires Honest(f)
    ensures Inv(f, After(f, actions))
  {
    if actions != [] {
      var before := actions[..|actions| - 1];
      Reachable(f, before);
      var s := After(f, before);
      match actions[|actions| - 1]
      case Create(_, _, _, _) => CreateKeeps(f, s, actions[|actions| - 1]);
      case Load(_, _, _, _) => LoadKeeps(f, s, actions[|actions| - 1]);
      case Append(worker) => AppendKeeps(f, s, worker);
    }
  }

  /** The events of a run are versions 1 to its head; each starts where its predecessor ended, and the head
      is where the last one ended. */
  ghost predicate Chained(t: Tables, runId: string)
    requires runId in t.runs
  {
    var row := t.runs[runId];
    && (forall v: nat :: (runId, v) in t.events <==> 1 <= v <= row.version)
    && (forall v: nat :: 1 < v <= row.version ==> t.events[(runId, v)].previous == t.events[(runId, v - 1)].current)
    && (row.version > 0 ==> row.context == t.events[(runId, row.version)].current)
  }

  lemma RunIsChained(f: Transition, t: Tables, runId: string, y: History)
    requires Honest(f) && runId in t.runs && RunOk(f, t, runId, y)
    ensures Chained(t, runId)
  {
    forall v: nat | 1 <= v <= |y.log|
      ensures (runId, v) in t.events && t.events[(runId, v)] == EventOf(y.log[v - 1], y.times[v - 1])
    {
      assert (runId, (v - 1) + 1) in t.events;
    }
    forall v: nat | 1 < v <= |y.log|
      ensures t.events[(runId, v)].previous == t.events[(runId, v - 1)].current
    {
      assert Final(y.initial, y.log[..v - 1]) == y.log[v - 2].current;
    }
  }

  // ---- where histories come from ---------------------------------------------------------------------

  /** `Create` gave the run this context, and was the first to create it. */
  ghost predicate CreatedWith(f: Transition, actions: seq<Action>, runId: string, context: LoopContext) {
    exists i :: 0 <= i < |actions| && actions[i].Create? && actions[i].runId == runId && actions[i].context == context
                && runId !in After(f, actions[..i]).tables.runs
  }

  /** Some worker loaded the run to give it this input. */
  ghost predicate LoadedWith(actions: seq<Action>, runId: string, input: Input) {
    exists i :: 0 <= i < |actions| && actions[i].Load? && actions[i].runId == runId && actions[i].input == input
  }

  ghost predicate Given(f: Transition, actions: seq<Action>, s: System) {
    && s.history.Keys <= s.tables.runs.Keys
    && (forall r :: r in s.history ==> CreatedWith(f, actions, r, s.history[r].initial))
    && (forall r, i :: r in s.history && i in s.history[r].inputs ==> LoadedWith(actions, r, i))
    && (forall w :: w in s.held ==> LoadedWith(actions, s.held[w].run.runId, s.held[w].input))
  }

  lemma StillCreated(f: Transition, actions: seq<Action>, a: Action, runId: string, context: LoopContext)
    requires CreatedWith(f, actions, runId, context)
    ensures CreatedWith(f, actions + [a], runId, context)
  {
    var i :| 0 <= i < |actions| && actions[i].Create? && actions[i].runId == runId && actions[i].context == context
             && runId !in After(f, actions[..i]).tables.runs;
    assert (actions + [a])[i] == actions[i] && (actions + [a])[..i] == actions[..i];
  }

  lemma StillLoaded(actions: seq<Action>, a: Action, runId: string, input: Input)
    requires LoadedWith(actions, runId, input)
    ensures LoadedWith(actions + [a], runId, input)
  {
    var i :| 0 <= i < |actions| && actions[i].Load? && actions[i].runId == runId && actions[i].input == input;
    assert (actions + [a])[i] == actions[i];
  }

  lemma StillGiven(f: Transition, actions: seq<Action>, a: Action, s: System)
    requires Given(f, actions, s)
    ensures Given(f, actions + [a], s)
  {
    forall r | r in s.history
      ensures CreatedWith(f, actions + [a], r, s.history[r].initial)
    {
      StillCreated(f, actions, a, r, s.history[r].initial);
    }
    forall r, i | r in s.history && i in s.history[r].inputs
      ensures LoadedWith(actions + [a], r, i)
    {
      StillLoaded(actions, a, r, i);
    }
    forall w | w in s.held
      ensures LoadedWith(actions + [a], s.held[w].run.runId, s.held[w].input)
    {
      StillLoaded(actions, a, s.held[w].run.runId, s.held[w].input);
    }
  }

  lemma CreateGiven(f: Transition, actions: seq<Action>, a: Action, s: System)
    requires Given(f, actions, s) && a.Create? && (a.runId !in s.tables.runs ==> CreatedWith(f, actions, a.runId, a.context))
    ensures Given(f, actions, Step(f, s, a).0)
  {
  }

  lemma LoadGiven(f: Transition, actions: seq<Action>, a: Action, s: System)
    requires Given(f, actions, s) && a.Load? && LoadedWith(actions, a.runId, a.input)
    ensures Given(f, actions, Step(f, s, a).0)
  {
  }

  lemma LostGiven(f: Transition, actions: seq<Action>, s: System, worker: nat)
    requires Given(f, actions, s)
    ensures Given(f, actions, s.(held := s.held - {worker}))
  {
  }

  lemma WonGiven(f: Transition, actions: seq<Action>, s: System, worker: nat, v: System)
    requires Given(f, actions, s) && worker in s.held && Won(f, s, worker, v)
    ensures Given(f, actions, v)
  {
    var h := s.held[worker];
    forall r, i | r in v.history && i in v.history[r].inputs
      ensures LoadedWith(actions, r, i)
    {
      assert i in s.history[r].inputs || (r == h.run.runId && i == h.input);
    }
  }

  lemma AppendGiven(f: Transition, actions: seq<Action>, s: System, worker: nat)
    requires Inv(f, s) && Given(f, actions, s)
    ensures Given(f, actions, Step(f, s, Append(worker)).0)
  {
    if worker in s.held {
      AppendOnlyConflicts(f, s, worker);
      if s.tables.runs[s.held[worker].run.runId].version == s.held[worker].run.version {
        AppendFrame(f, s, worker);
        WonGiven(f, actions, s, worker, Step(f, s, Append(worker)).0);
      } else {
        LostGiven(f, actions, s, worker);
      }
    }
  }

  lemma GivenStep(f: Transition, actions: seq<Action>, a: Action)
    requires Inv(f, After(f, actions)) && Given(f, actions, After(f, actions))
    ensures Given(f, actions + [a], Step(f, After(f, actions), a).0)
  {
    var s, n := After(f, actions), |actions|;
    assert (actions + [a])[n] == a && (actions + [a])[..n] == actions;
    StillGiven(f, actions, a, s);
    match a
    case Create(_, _, _, _) => CreateGiven(f, actions + [a], a, s);
    case Load(_, _, _, _) => LoadGiven(f, actions + [a], a, s);
    case Append(worker) => AppendGiven(f, actions + [a], s, worker);
  }

  lemma {:induction false} EverythingGiven(f: Transition, actions: seq<Action>)
    requires Honest(f)
    ensures Given(f, actions, After(f, actions))
  {
    if actions != [] {
      var n := |actions| - 1;
      EverythingGiven(f, actions[..n]);
      Reachable(f, actions[..n]);
      GivenStep(f, actions[..n], actions[n]);
      assert actions == actions[..n] + [actions[n]];
    }
  }

  /** However the workers interleave, every run's committed events are one sequential run of the transition
      function, recorded without gaps: from the context its first `Create` gave, by inputs that workers loaded it
      for. */
  lemma Serializable(f: Transition, actions: seq<Action>, runId: string)
    requires Honest(f) && runId in After(f, actions).tables.runs
    ensures var s := After(f, actions);
      && Chained(s.tables, runId) && runId in s.history
      && var y := s.history[runId];
         && FoldOf(f, y.initial, y.inputs, y.log) && Recorded(s.tables, runId, y.initial, y.log)
         && CreatedWith(f, actions, runId, y.initial)
         && forall i :: i in y.inputs ==> LoadedWith(actions, runId, i)
  {
    Reachable(f, actions);
    EverythingGiven(f, actions);
    var s := After(f, actions);
    var y := s.history[runId];
    assert RunOk(f, s.tables, runId, y);
    RunIsChained(f, s.tables, runId, y);
    forall i | 0 <= i < |y.log|
      ensures (runId, i + 1) in s.tables.events && SameStep(s.tables.events[(runId, i + 1)], y.log[i])
    {
    }
    assert Recorded(s.tables, runId, y.initial, y.log);
  }

  /** What `list_events` lists of a run is its events from version 1 to the head. */
  lemma ListedWithoutGaps(f: Transition, actions: seq<Action>, runId: string, versions: seq<nat>, rows: seq<EventRow>)
    requires Honest(f) && runId in After(f, actions).tables.runs
    requires ListsVersions(versions, runId, After(f, actions).tables.events)
    requires AreRows(rows, versions, runId, After(f, actions).tables.events)
    ensures var t := After(f, actions).tables;
      && |rows| == t.runs[runId].version
      && forall i :: 0 <= i < |rows| ==> (runId, i + 1) in t.events && rows[i] == t.events[(runId, i + 1)]
  {
    Serializable(f, actions, runId);
    VersionsAre(versions, After(f, actions).tables.runs[runId].version);
  }

  predicate SameStep(e: EventRow, r: LoopResult) {
    e.event == r.event && e.accepted == r.accepted && e.decision == r.decision && e.reason == r.reason
    && e.previous == r.previous && e.current == r.current
  }

  /** The run's head and events are exactly this log. */
  ghost predicate Recorded(t: Tables, runId: string, initial: LoopContext, log: seq<LoopResult>) {
    && runId in t.runs && t.runs[runId].version == |log| && t.runs[runId].context == Final(initial, log)
    && forall i :: 0 <= i < |log| ==> (runId, i + 1) in t.events && SameStep(t.events[(runId, i + 1)], log[i])
  }

  /** The only error a worker can meet at its append is that another worker was faster. */
  lemma OnlyVersionConflicts(f: Transition, actions: seq<Action>, worker: nat)
    requires Honest(f)
    ensures Step(f, After(f, actions), Append(worker)).1 in {None, Some(VersionConflict)}
  {
    Reachable(f, actions);
    if worker in After(f, actions).held {
      AppendOnlyConflicts(f, After(f, actions), worker);
    }
  }

  /** In every reachable system of the real controller every run's head keeps its counters exact and within
      the policy, if it was created within the policy. */
  lemma ReachableWithinPolicy(p: LoopPolicy, actions: seq<Action>, runId: string)
    requires ValidPolicy(p) && runId in After(Machine(p), actions).history
    requires WithinPolicy(After(Machine(p), actions).history[runId].initial, p)
    ensures var s := After(Machine(p), actions);
            runId in s.tables.runs
            && var y := s.history[runId]; var head := s.tables.runs[runId].context;
            && WithinPolicy(head, p)
            && head.iterations == y.initial.iterations + Ran(y.log)
            && head.retries == FailureStreak(y.initial.retries, y.log)
            && |y.inputs| == |y.log| && head.budgetUsed == y.initial.budgetUsed + Charged(y.inputs, y.log)
  {
    MachineIsHonest(p);
    Reachable(Machine(p), actions);
    var s := After(Machine(p), actions);
    var y := s.history[runId];
    assert RunOk(Machine(p), s.tables, runId, y);
    FoldOfMachine(y.initial, p, y.inputs, y.log);
    RunsStayWithinPolicy(y.initial, p, y.inputs, y.log);
    CountersAreStatistics(y.initial, p, y.inputs, y.log);
  }
}
