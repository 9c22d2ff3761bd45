/** The versioned store of loop runs: one head row per run and an append-only event table, with
    compare-and-swap on the version. A context column stands for its canonical JSON text: by
    `ContextCodec.DecodeIffEncode` a text read back is the context it was written from, and no other. */
module LoopStore {
  import opened Common
  import opened LoopController
  import opened LoopRuns

  datatype RunRow = RunRow(taskId: string, version: nat, context: LoopContext, updatedAt: nat)

  datatype EventRow = EventRow(
    event: LoopEvent, accepted: bool, decision: LoopDecision, reason: LoopReason,
    previous: LoopContext, current: LoopContext, recordedAt: nat)

  datatype StoredRun = StoredRun(runId: string, taskId: string, version: nat, context: LoopContext, updatedAt: nat)

  datatype StoreError =
    | RunNotFound | RunExists | VersionConflict | PreviousContextMismatch | EventVersionConflict

  /** Both tables; the key of an event is (run_id, version), which is UNIQUE. */
  datatype Tables = Tables(runs: map<string, RunRow>, events: map<(string, nat), EventRow>)

  function RunFromRow(runId: string, row: RunRow): StoredRun {
    StoredRun(runId, row.taskId, row.version, row.context, row.updatedAt)
  }

  function Created(t: Tables, runId: string, taskId: string, context: LoopContext, at: nat): Result<Tables, StoreError> {
    if runId in t.runs then Failure(RunExists)
    else Success(t.(runs := t.runs[runId := RunRow(taskId, 0, context, at)]))
  }

  function Loaded(t: Tables, runId: string): Result<StoredRun, StoreError> {
    if runId in t.runs then Success(RunFromRow(runId, t.runs[runId])) else Failure(RunNotFound)
  }

  function EventOf(r: LoopResult, at: nat): EventRow {
    EventRow(r.event, r.accepted, r.decision, r.reason, r.previous, r.current, at)
  }

  function Appended(t: Tables, runId: string, expectedVersion: nat, r: LoopResult, at: nat): Result<Tables, StoreError> {
    var stored := Loaded(t, runId);
    if stored.Failure? then Failure(stored.error)
    else if stored.value.version != expectedVersion then Failure(VersionConflict)
    else if stored.value.context != r.previous then Failure(PreviousContextMismatch)
    else if (runId, expectedVersion + 1) in t.events then Failure(EventVersionConflict)
    else
      var row := t.runs[runId].(version := expectedVersion + 1, context := r.current, updatedAt := at);
      Success(Tables(t.runs[runId := row], t.events[(runId, expectedVersion + 1) := EventOf(r, at)]))
  }

  /** A run is created at version 0 with the context given, unless it is there. */
  lemma CreatesExactly(t: Tables, runId: string, taskId: string, context: LoopContext, at: nat)
    ensures var r := Created(t, runId, taskId, context, at);
      && (r == Failure(RunExists) <==> runId in t.runs) && (r.Success? <==> runId !in t.runs)
      && (r.Success? ==> r.value.events == t.events && r.value.runs == t.runs[runId := RunRow(taskId, 0, context, at)])
  {
  }

  /** An append is refused, first of all, if the run is unknown, then if its version is not the one expected, then if the result
      does not start from its context, then if the next version is taken; otherwise it adds the event under the next version
      and moves the head there. */
  lemma AppendsExactly(t: Tables, runId: string, expectedVersion: nat, r: LoopResult, at: nat)
    ensures var a := Appended(t, runId, expectedVersion, r, at);
      && (a == Failure(RunNotFound) <==> runId !in t.runs)
      && (a == Failure(VersionConflict) <==> runId in t.runs && t.runs[runId].version != expectedVersion)
      && (a == Failure(PreviousContextMismatch) <==>
            runId in t.runs && t.runs[runId].version == expectedVersion && t.runs[runId].context != r.previous)
      && (a == Failure(EventVersionConflict) <==>
            runId in t.runs && t.runs[runId].version == expectedVersion && t.runs[runId].context == r.previous
            && (runId, expectedVersion + 1) in t.events)
      && a != Failure(RunExists)
      && (a.Success? ==>
            && a.value.events == t.events[(runId, expectedVersion + 1) :=
                 EventRow(r.event, r.accepted, r.decision, r.reason, r.previous, r.current, at)]
            && a.value.runs == t.runs[runId := RunRow(t.runs[runId].taskId, expectedVersion + 1, r.current, at)])
  {
  }

  lemma LoadsExactly(t: Tables, runId: string)
    ensures var r := Loaded(t, runId);
      && (r == Failure(RunNotFound) <==> runId !in t.runs) && (r.Success? <==> runId in t.runs)
      && (r.Success? ==> r.value == StoredRun(runId, t.runs[runId].taskId, t.runs[runId].version, t.runs[runId].context, t.runs[runId].updatedAt))
  {
  }

  class LoopStateStore {
    var runs: map<string, RunRow>
    var events: map<(string, nat), EventRow>

    constructor ()
      ensures View() == Tables(map[], map[])
    {
      runs, events := map[], map[];
    }

    ghost function View(): Tables
      reads this
    {
      Tables(runs, events)
    }

    method CreateRun(runId: string, taskId: string, context: LoopContext, recordedAt: nat) returns (r: Result<StoredRun, StoreError>)
      modifies this
      ensures r.Success? <==> Created(old(View()), runId, taskId, context, recordedAt).Success?
      ensures r.Success? ==> View() == Created(old(View()), runId, taskId, context, recordedAt).value
      ensures r.Success? ==> r.value == StoredRun(runId, taskId, 0, context, recordedAt)
      ensures r.Failure? ==> View() == old(View()) && r.error == RunExists
    {
      if runId in runs {
        return Failure(RunExists);
      }
      runs := runs[runId := RunRow(taskId, 0, context, recordedAt)];
      r := Success(RunFromRow(runId, runs[runId]));
    }

    method LoadRun(runId: string) returns (r: Result<StoredRun, StoreError>)
      ensures r == Loaded(View(), runId)
    {
      if runId !in runs {
        return Failure(RunNotFound);
      }
      r := Success(RunFromRow(runId, runs[runId]));
    }

    method AppendResult(runId: string, expectedVersion: nat, result: LoopResult, recordedAt: nat)
      returns (r: Result<StoredRun, StoreError>)
      modifies this
      ensures var spec := Appended(old(View()), runId, expectedVersion, result, recordedAt);
              if spec.Failure? then r == Failure(spec.error) && View() == old(View())
              else r.Success? && View() == spec.value
                   && r.value == StoredRun(runId, old(runs)[runId].taskId, expectedVersion + 1, result.current, recordedAt)
    {
      if runId !in runs {
        return Failure(RunNotFound);
      }
      var stored := RunFromRow(runId, runs[runId]);
      if stored.version != expectedVersion {
        return Failure(VersionConflict);
      }
      if stored.context != result.previous {
        return Failure(PreviousContextMismatch);
      }
      var next := expectedVersion + 1;
      if (runId, next) in events {
        return Failure(EventVersionConflict);
      }
      events := events[(runId, next) := EventOf(result, recordedAt)];
      runs := runs[runId := runs[runId].(version := next, context := result.current, updatedAt := recordedAt)];
      r := Success(RunFromRow(runId, runs[runId]));
    }

    /** The run's events in version order. */
    method ListEvents(runId: string) returns (rows: seq<EventRow>)
      ensures exists versions :: ListsVersions(versions, runId, events) && AreRows(rows, versions, runId, events)
    {
      ghost var versions: seq<nat> := [];
      rows := [];
      var rest := set k | k in events && k.0 == runId :: k.1;
      while rest != {}
        invariant forall v :: v in rest || v in versions <==> (runId, v) in events
        invariant forall v :: v in versions ==> v !in rest
        invariant Increasing(versions) && forall i, v :: 0 <= i < |versions| && v in rest ==> versions[i] < v
        invariant AreRows(rows, versions, runId, events)
        decreases rest
      {
        var v := LeastVersion(rest);
        rows, versions, rest := rows + [events[(runId, v)]], versions + [v], rest - {v};
      }
    }
  }

  ghost predicate Increasing(versions: seq<nat>) {
    forall i, j :: 0 <= i < j < |versions| ==> versions[i] < versions[j]
  }

  /** The versions of a run's events, in order. */
  ghost predicate ListsVersions(versions: seq<nat>, runId: string, events: map<(string, nat), EventRow>) {
    Increasing(versions) && forall v :: v in versions <==> (runId, v) in events
  }

  ghost predicate AreRows(rows: seq<EventRow>, versions: seq<nat>, runId: string, events: map<(string, nat), EventRow>) {
    && |rows| == |versions|
    && forall i :: 0 <= i < |rows| ==> (runId, versions[i]) in events && rows[i] == events[(runId, versions[i])]
  }

  method LeastVersion(versions: set<nat>) returns (least: nat)
    requires versions != {}
    ensures least in versions && forall v :: v in versions ==> least <= v
  {
    least :| least in versions;
    var rest := versions - {least};
    while rest != {}
      invariant rest <= versions && least in versions
      invariant forall v: nat :: v in versions - rest ==> least <= v
      decreases rest
    {
      var v :| v in rest;
      ghost var seen := versions - rest;
      rest := rest - {v};
      assert versions - rest == seen + {v};
      if v < least {
        least := v;
      }
    }
    assert versions - rest == versions;
  }

  ghost predicate UpTo(versions: seq<nat>, n: nat) {
    Increasing(versions) && forall v: nat :: v in versions <==> 1 <= v <= n
  }

  lemma Listed(versions: seq<nat>, i: nat)
    requires i < |versions|
    ensures versions[i] in versions
  {
  }

  lemma LastVersion(versions: seq<nat>, n: nat)
    requires UpTo(versions, n) && n > 0
    ensures versions != [] && versions[|versions| - 1] == n && UpTo(versions[..|versions| - 1], n - 1)
  {
    assert n in versions;
    var i, last := IndexOf(versions, n), |versions| - 1;
    Listed(versions, last);
    assert versions == versions[..last] + [versions[last]];
    forall v: nat
      ensures v in versions[..last] <==> 1 <= v <= n - 1
    {
      assert v in versions <==> v in versions[..last] || v == n;
    }
  }

  function IndexOf(versions: seq<nat>, v: nat): (i: nat)
    requires v in versions
    ensures i < |versions| && versions[i] == v
  {
    if versions[0] == v then 0 else 1 + IndexOf(versions[1..], v)
  }

  /** If the versions are those from 1 to `n`, the list is just that. */
  lemma {:induction false} VersionsAre(versions: seq<nat>, n: nat)
    requires UpTo(versions, n)
    ensures |versions| == n && forall i :: 0 <= i < n ==> versions[i] == i + 1
    decreases n
  {
    if n > 0 {
      LastVersion(versions, n);
      VersionsAre(versions[..|versions| - 1], n - 1);
    } else if versions != [] {
      Listed(versions, 0);
    }
  }

  /** `LoopEngine`: load, compute, append. */
  class LoopEngine {
    const store: LoopStateStore
    const policy: LoopPolicy

    constructor (store: LoopStateStore, policy: LoopPolicy)
      ensures this.store == store && this.policy == policy
    {
      this.store, this.policy := store, policy;
    }

    method Step(runId: string, input: Input, recordedAt: nat, expectedVersion: Option<nat>)
      returns (r: Result<(StoredRun, LoopResult), StoreError>)
      modifies store
      ensures var run := Loaded(old(store.View()), runId);
              if run.Failure? then r == Failure(run.error) && store.View() == old(store.View())
              else if expectedVersion.Some? && run.value.version != expectedVersion.value then
                r == Failure(VersionConflict) && store.View() == old(store.View())
              else
                var transition := Advance(run.value.context, policy, input);
                var spec := Appended(old(store.View()), runId, run.value.version, transition, recordedAt);
                if spec.Failure? then r == Failure(spec.error) && store.View() == old(store.View())
                else store.View() == spec.value
                     && r == Success((StoredRun(runId, run.value.taskId, run.value.version + 1, transition.current, recordedAt), transition))
    {
      var current := store.LoadRun(runId);
      if current.Failure? {
        return Failure(current.error);
      }
      if expectedVersion.Some? && current.value.version != expectedVersion.value {
        return Failure(VersionConflict);
      }
      var transition := Advance(current.value.context, policy, input);
      var stored := store.AppendResult(runId, current.value.version, transition, recordedAt);
      if stored.Failure? {
        return Failure(stored.error);
      }
      r := Success((stored.value, transition));
    }
  }
}
