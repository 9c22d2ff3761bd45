/** The drain itself, over a row table, an in-memory backend and a receipt ledger that it updates in
    place. Whatever fails, what it did is a run of the outbox's state machine. */
module ProjectionDrain {
  import opened Common
  import opened CanonicalRef
  import opened ProjectionOutbox
  import opened ProjectionInvariant
  import opened ProjectionTheorems
  import opened ProjectionWork
  import opened Sorting

  datatype Scope = Scope(projectId: string, datasetId: string)

  /** `DisposableInMemoryCogneeBackend`: per scope, one event per name. */
  class Backend {
    var events: map<Scope, map<string, Event>>

    constructor ()
      ensures events == map[]
    {
      events := map[];
    }

    function Index(scope: Scope): map<string, Event>
      reads this
    {
      if scope in events then events[scope] else map[]
    }

    method Project(scope: Scope, event: Event)
      modifies this
      ensures Index(scope) == old(Index(scope))[event.ref := event]
      ensures forall s :: s != scope ==> Index(s) == old(Index(s))
    {
      events := events[scope := Index(scope)[event.ref := event]];
    }

    method ForgetProjection(scope: Scope) returns (forgotten: nat)
      modifies this
      ensures forgotten == |old(Index(scope))|
      ensures Index(scope) == map[]
      ensures forall s :: s != scope ==> Index(s) == old(Index(s))
    {
      forgotten := |Index(scope)|;
      events := events - {scope};
    }

    /** The highest revision indexed, and whether it is the store's: READY or STALE. */
    method Health(scope: Scope, currentRevision: nat) returns (ready: bool, indexedRevision: nat)
      ensures forall r :: r in Index(scope) ==> Index(scope)[r].revision <= indexedRevision
      ensures indexedRevision == 0 || exists r :: r in Index(scope) && Index(scope)[r].revision == indexedRevision
      ensures ready <==> indexedRevision == currentRevision
    {
      indexedRevision := 0;
      var index := Index(scope);
      var rest := index.Keys;
      while rest != {}
        invariant rest <= index.Keys
        invariant forall r :: r in index.Keys - rest ==> index[r].revision <= indexedRevision
        invariant indexedRevision == 0 || exists r :: r in index && index[r].revision == indexedRevision
        decreases |rest|
      {
        var r :| r in rest;
        rest := rest - {r};
        if indexedRevision < index[r].revision {
          indexedRevision := index[r].revision;
        }
      }
      ready := indexedRevision == currentRevision;
    }
  }

  /** The rows of one scope, and the dataset's receipt ledger. */
  class Outbox {
    var rows: map<WorkKey, Row>
    var indexedRevision: nat

    constructor ()
      ensures rows == map[] && indexedRevision == 0
    {
      rows := map[];
      indexedRevision := 0;
    }

    /** The first `limit` unfinished rows by revision, now PROCESSING. */
    method ClaimRows(limit: nat) returns (works: seq<WorkKey>)
      modifies this`rows
      ensures FirstUnfinished(old(rows), works, limit)
      ensures rows == Processed(old(rows), works)
    {
      works := [];
      var rest := set k | k in rows && rows[k].state != Done;
      while rest != {} && |works| < limit
        invariant rows == old(rows)
        invariant forall k :: k in rest <==> k in rows && rows[k].state != Done && k !in works
        invariant Claimable(rows, works) && |works| <= limit
        invariant forall i, j :: 0 <= i < j < |works| ==> works[i].revision <= works[j].revision
        invariant forall i, k :: 0 <= i < |works| && k in rest ==> works[i].revision <= k.revision
        decreases |rest|
      {
        var first := LeastRevision(rest);
        works := works + [first];
        rest := rest - {first};
      }
      rows := Processed(rows, works);
    }

    method FinishRow(work: WorkKey, state: RowState)
      requires work in rows
      modifies this`rows
      ensures rows == old(rows)[work := old(rows)[work].(state := state)]
    {
      rows := rows[work := rows[work].(state := state)];
    }

    /** The names whose newest row is not a delete, each once, in order. */
    method ActiveScopeRefs() returns (refs: seq<string>)
      ensures IsActiveList(rows, refs)
    {
      refs := [];
      var rest := set k | k in rows && Active(rows, k.ref) :: k.ref;
      while rest != {}
        invariant forall r :: r in rest || r in refs <==> Active(rows, r)
        invariant forall r :: r in refs ==> r !in rest
        invariant forall i, r :: 0 <= i < |refs| && r in rest ==> StringLe(refs[i], r)
        invariant Ascending(refs)
        decreases |rest|
      {
        var r := LeastName(rest);
        AscendingMore(refs, r);
        refs := refs + [r];
        rest := rest - {r};
      }
    }

    method MarkDatasetRevision(revision: nat)
      modifies this`indexedRevision
      ensures indexedRevision == if old(indexedRevision) < revision then revision else old(indexedRevision)
    {
      if indexedRevision < revision {
        indexedRevision := revision;
      }
    }
  }

  method LeastRevision(works: set<WorkKey>) returns (least: WorkKey)
    requires works != {}
    ensures least in works && forall k :: k in works ==> least.revision <= k.revision
  {
    least :| least in works;
    var rest := works - {least};
    while rest != {}
      invariant rest <= works && least in works
      invariant forall k :: k in works - rest ==> least.revision <= k.revision
      decreases |rest|
    {
      var k :| k in rest;
      rest := rest - {k};
      if k.revision < least.revision {
        least := k;
      }
    }
  }

  /** `v` is what some drain steps make of `w`, no writer coming in between. */
  ghost predicate Drains(w: World, v: World) {
    exists trail: seq<World>, actions: seq<Action> ::
      Run(trail, actions) && trail[0] == w && trail[|trail| - 1] == v && forall a :: a in actions ==> !ByWriter(a)
  }

  lemma DrainsNothing(w: World)
    ensures Drains(w, w)
  {
    assert Run([w], []);
  }

  lemma DrainsStep(w: World, v: World, a: Action, u: World)
    requires Drains(w, v) && Next(v, a, u) && !ByWriter(a)
    ensures Drains(w, u)
  {
    var trail: seq<World>, actions: seq<Action> :|
      Run(trail, actions) && trail[0] == w && trail[|trail| - 1] == v && forall b :: b in actions ==> !ByWriter(b);
    var ws, bs := trail + [u], actions + [a];
    forall i | 0 <= i < |bs|
      ensures Next(ws[i], bs[i], ws[i + 1])
    {
      if i < |actions| {
        assert ws[i] == trail[i] && bs[i] == actions[i] && ws[i + 1] == trail[i + 1];
      }
    }
    assert Run(ws, bs);
  }

  lemma DrainsKeep(w: World, v: World)
    requires Drains(w, v) && Inv(w)
    ensures Inv(v)
  {
    var trail: seq<World>, actions: seq<Action> :|
      Run(trail, actions) && trail[0] == w && trail[|trail| - 1] == v && forall a :: a in actions ==> !ByWriter(a);
    RunKeeps(trail, actions, |trail| - 1);
  }

  /** The world whose table, index, ledger and facts are these objects' contents. */
  ghost predicate Shows(w: World, outbox: Outbox, backend: Backend, scope: Scope, facts: map<Key, Fact>)
    reads outbox, backend
  {
    w.rows == outbox.rows && w.ledger == outbox.indexedRevision && w.index == backend.Index(scope) && w.facts == facts
  }

  /** The name is a fact's, and this is its mirror, or nothing if the fact is gone. */
  predicate ReadAs(facts: map<Key, Fact>, ref: string, event: Option<Event>) {
    && Target(ref).Some? && (event.Some? <==> Target(ref).value in facts)
    && (event.Some? ==> Mirrors(event.value, ref, facts[Target(ref).value]))
  }

  /** Both steps for one name: read the fact, project the event if there is one. `calls` is how many more
      calls to the backend succeed. */
  method ProjectRef(backend: Backend, scope: Scope, facts: map<Key, Fact>, ref: string, calls: nat)
    returns (ok: bool, left: nat, event: Option<Event>)
    modifies backend
    ensures left <= calls
    ensures ok ==> ReadEvent(facts, ref) == Success(event) && backend.Index(scope) == Put1(old(backend.Index(scope)), event)
    ensures ok ==> ReadAs(facts, ref, event)
    ensures ok ==> left == calls - Yield(facts, ref)
    ensures !ok ==> backend.Index(scope) == old(backend.Index(scope))
    ensures !ok ==> ReadEvent(facts, ref).Failure? || (left == 0 && calls < Yield(facts, ref))
  {
    var r := ReadEvent(facts, ref);
    ReadsExactly(facts, ref);
    if r.Failure? {
      return false, calls, None;
    }
    event := r.value;
    if event.None? {
      return true, calls, event;
    }
    if calls == 0 {
      return false, 0, event;
    }
    EventKeepsName(facts, ref);
    backend.Project(scope, event.value);
    return true, calls - 1, event;
  }

  lemma EventKeepsName(facts: map<Key, Fact>, ref: string)
    ensures ReadEvent(facts, ref).Success? && ReadEvent(facts, ref).value.Some? ==> ReadEvent(facts, ref).value.value.ref == ref
  {
  }

  /** A delete row: forget the scope, then project every active name again. */
  method Rebuild(outbox: Outbox, backend: Backend, scope: Scope, facts: map<Key, Fact>, calls: nat,
                 ghost start: World, ghost w: World)
    returns (ok: bool, left: nat, projected: nat, ghost v: World)
    requires Drains(start, w) && Shows(w, outbox, backend, scope, facts) && OnRow(w, Picked, Delete)
    modifies backend
    ensures Drains(start, v) && Shows(v, outbox, backend, scope, facts)
    ensures v.drainer.Busy? && v.drainer.claimed == w.drainer.claimed
    ensures ok ==> v.drainer.phase == Rebuilding([])
    ensures ok ==> forall r :: Active(outbox.rows, r) ==> ReadEvent(facts, r).Success?
    ensures ok ==> left + 1 + projected == calls && projected == Projections(outbox.rows, facts, Head(w))
    ensures !ok ==> Stuck(outbox.rows, facts, Head(w)) || (left == 0 && calls < 1 + Projections(outbox.rows, facts, Head(w)))
  {
    v := w;
    projected := 0;
    left := calls;
    if left == 0 {
      return false, 0, 0, v;
    }
    left := left - 1;
    var _ := backend.ForgetProjection(scope);
    v := WithPhase(w, Wiped).(index := map[]);
    DrainsStep(start, w, Forget, v);
    var refs := outbox.ActiveScopeRefs();
    ghost var listed := WithPhase(v, Rebuilding(refs));
    DrainsStep(start, v, ListRefs, listed);
    v := listed;
    assert refs[0..] == refs;
    ok, left, projected, v := ProjectAll(outbox, backend, scope, facts, refs, left, start, v);
    RebuildYields(outbox.rows, facts, refs);
  }

  lemma NextRef(facts: map<Key, Fact>, refs: seq<string>, i: nat)
    requires i < |refs|
    ensures refs[i..][1..] == refs[i + 1..] && refs[i..] != [] && refs[i..][0] == refs[i]
    ensures Yields(facts, refs[..i + 1]) == Yields(facts, refs[..i]) + Yield(facts, refs[i])
  {
    assert refs[..i + 1][..i] == refs[..i];
  }

  lemma ListedIsActive(rows: map<WorkKey, Row>, refs: seq<string>, i: nat)
    requires i < |refs| && ListsActive(rows, refs)
    ensures Active(rows, refs[i])
  {
    assert refs[i] in refs;
  }

  lemma {:induction false} YieldsGrow(facts: map<Key, Fact>, refs: seq<string>, i: nat)
    requires i <= |refs|
    ensures Yields(facts, refs[..i]) <= Yields(facts, refs)
    decreases |refs| - i
  {
    if i < |refs| {
      NextRef(facts, refs, i);
      YieldsGrow(facts, refs, i + 1);
    } else {
      assert refs[..i] == refs;
    }
  }

  lemma NameProjected(start: World, w: World, refs: seq<string>, event: Option<Event>)
    requires Drains(start, w) && w.drainer.Busy? && w.drainer.claimed != [] && Head(w) in w.rows
    requires refs != [] && w.drainer.phase == Rebuilding(refs) && ReadEvent(w.facts, refs[0]) == Success(event)
    ensures Drains(start, WithPhase(w, Rebuilding(refs[1..])).(index := Put1(w.index, event)))
  {
    var read := WithPhase(w, Rebuilt(refs[1..], event));
    DrainsStep(start, w, Load, read);
    DrainsStep(start, read, Project, WithPhase(w, Rebuilding(refs[1..])).(index := Put1(w.index, event)));
  }

  /** One name of the list. */
  method ProjectNext(outbox: Outbox, backend: Backend, scope: Scope, facts: map<Key, Fact>, refs: seq<string>, i: nat, calls: nat,
                     ghost start: World, ghost w: World)
    returns (ok: bool, left: nat, ghost v: World)
    requires i < |refs| && Drains(start, w) && Shows(w, outbox, backend, scope, facts)
    requires w.drainer.Busy? && w.drainer.claimed != [] && w.drainer.phase == Rebuilding(refs[i..]) && Head(w) in w.rows
    modifies backend
    ensures Drains(start, v) && Shows(v, outbox, backend, scope, facts) && v.rows == w.rows
    ensures v.drainer == Busy(w.drainer.claimed, Rebuilding(if ok then refs[i + 1..] else refs[i..]))
    ensures ok ==> ReadEvent(facts, refs[i]).Success? && left + Yield(facts, refs[i]) == calls
    ensures !ok ==> ReadEvent(facts, refs[i]).Failure? || (left == 0 && calls < Yield(facts, refs[i]))
  {
    var event;
    ok, left, event := ProjectRef(backend, scope, facts, refs[i], calls);
    v := w;
    if ok {
      NextRef(facts, refs, i);
      NameProjected(start, w, refs[i..], event);
      v := WithPhase(w, Rebuilding(refs[i + 1..])).(index := Put1(w.index, event));
    }
  }

  /** The loop over the active names. */
  method ProjectAll(outbox: Outbox, backend: Backend, scope: Scope, facts: map<Key, Fact>, refs: seq<string>, calls: nat,
                    ghost start: World, ghost w: World)
    returns (ok: bool, left: nat, projected: nat, ghost v: World)
    requires Drains(start, w) && Shows(w, outbox, backend, scope, facts)
    requires w.drainer.Busy? && w.drainer.claimed != [] && w.drainer.phase == Rebuilding(refs)
    requires Head(w) in w.rows && ListsActive(outbox.rows, refs)
    modifies backend
    ensures Drains(start, v) && Shows(v, outbox, backend, scope, facts)
    ensures v.drainer.Busy? && v.drainer.claimed == w.drainer.claimed
    ensures ok ==> v.drainer.phase == Rebuilding([])
    ensures ok ==> forall r :: r in refs ==> ReadEvent(facts, r).Success?
    ensures ok ==> projected == Yields(facts, refs) && left + projected == calls
    ensures !ok ==> (exists r :: Active(outbox.rows, r) && ReadEvent(facts, r).Failure?)
                    || (left == 0 && calls < Yields(facts, refs))
  {
    v := w;
    projected, left := 0, calls;
    var i := 0;
    while i < |refs|
      invariant i <= |refs|
      invariant Drains(start, v) && Shows(v, outbox, backend, scope, facts)
      invariant v.drainer == Busy(w.drainer.claimed, Rebuilding(refs[i..])) && v.rows == w.rows
      invariant forall j :: 0 <= j < i ==> ReadEvent(facts, refs[j]).Success?
      invariant projected == Yields(facts, refs[..i]) && left + projected == calls
    {
      var done, more;
      done, more, v := ProjectNext(outbox, backend, scope, facts, refs, i, left, start, v);
      NextRef(facts, refs, i);
      if !done {
        ListedIsActive(outbox.rows, refs, i);
        YieldsGrow(facts, refs, i + 1);
        return false, more, projected, v;
      }
      projected, left, i := projected + (left - more), more, i + 1;
    }
    assert refs[..|refs|] == refs;
    ok := true;
  }

  /** A put row: read the fact and project the event if there is one. */
  method ProcessPut(outbox: Outbox, backend: Backend, scope: Scope, facts: map<Key, Fact>, work: WorkKey, calls: nat,
                    ghost start: World, ghost w: World)
    returns (ok: bool, left: nat, projected: nat, ghost v: World)
    requires Drains(start, w) && Shows(w, outbox, backend, scope, facts)
    requires OnRow(w, Picked, Put) && Head(w) == work
    modifies backend
    ensures Drains(start, v) && Shows(v, outbox, backend, scope, facts)
    ensures v.drainer.Busy? && v.drainer.claimed == w.drainer.claimed
    ensures ok ==> v.drainer.phase == Handled && ReadEvent(facts, work.ref).Success?
    ensures ok ==> projected == Yield(facts, work.ref) && left + projected == calls
    ensures !ok ==> ReadEvent(facts, work.ref).Failure? || (left == 0 && calls < Yield(facts, work.ref))
  {
    v := w;
    projected := 0;
    var event;
    ok, left, event := ProjectRef(backend, scope, facts, work.ref, calls);
    if ok {
      ghost var read := WithPhase(w, Loaded(event));
      DrainsStep(start, w, Load, read);
      v := WithPhase(read, Handled).(index := Put1(read.index, event));
      DrainsStep(start, read, Project, v);
      projected := if event.Some? then 1 else 0;
    }
  }

  /** One claimed row, up to the ledger. */
  method ProcessRow(outbox: Outbox, backend: Backend, scope: Scope, facts: map<Key, Fact>, work: WorkKey, calls: nat,
                    ghost start: World, ghost w: World)
    returns (ok: bool, left: nat, projected: nat, forgotten: nat, ghost v: World)
    requires Drains(start, w) && Shows(w, outbox, backend, scope, facts)
    requires w.drainer.Busy? && w.drainer.claimed != [] && Head(w) == work && w.drainer.phase == Picked
    requires work in outbox.rows
    modifies backend, outbox`indexedRevision
    ensures Drains(start, v) && Shows(v, outbox, backend, scope, facts)
    ensures v.drainer.Busy? && v.drainer.claimed == w.drainer.claimed
    ensures ok ==> v.drainer.phase == Marked && !Stuck(outbox.rows, facts, work)
    ensures ok ==> projected == Projections(outbox.rows, facts, work) && left + RowCost(outbox.rows, facts, work) == calls
    ensures !ok ==> Stuck(outbox.rows, facts, work) || (left == 0 && calls < RowCost(outbox.rows, facts, work))
    ensures ok ==> forgotten == if outbox.rows[work].operation == Delete then 1 else 0
  {
    forgotten := if outbox.rows[work].operation == Delete then 1 else 0;
    if outbox.rows[work].operation == Delete {
      ok, left, projected, v := Rebuild(outbox, backend, scope, facts, calls, start, w);
    } else {
      ok, left, projected, v := ProcessPut(outbox, backend, scope, facts, work, calls, start, w);
    }
    if ok && left == 0 {
      ok := false;
    }
    if ok {
      left := left - 1;
      outbox.MarkDatasetRevision(work.revision);
      ghost var marked := WithPhase(v, Marked).(ledger := outbox.indexedRevision);
      DrainsStep(start, v, Mark, marked);
      v := marked;
    }
  }

  /** One turn of the drain's loop: the row ends DONE, or back in the queue after a failure. */
  method DrainRow(outbox: Outbox, backend: Backend, scope: Scope, facts: map<Key, Fact>, work: WorkKey, calls: nat,
                  ghost start: World, ghost w: World)
    returns (ok: bool, left: nat, projected: nat, forgotten: nat, ghost v: World)
    requires Drains(start, w) && Shows(w, outbox, backend, scope, facts)
    requires w.drainer.Busy? && w.drainer.claimed != [] && Head(w) == work && w.drainer.phase == Picked
    requires work in outbox.rows
    modifies backend, outbox
    ensures Drains(start, v) && Shows(v, outbox, backend, scope, facts)
    ensures outbox.rows == old(outbox.rows)[work := old(outbox.rows)[work].(state := if ok then Done else Queued)]
    ensures v.drainer == if !ok || |w.drainer.claimed| == 1 then Idle else Busy(w.drainer.claimed[1..], Picked)
    ensures !ok ==> Stuck(old(outbox.rows), facts, work) || (left == 0 && calls < RowCost(old(outbox.rows), facts, work))
    ensures ok ==> forgotten == if old(outbox.rows)[work].operation == Delete then 1 else 0
    ensures ok ==> !Stuck(old(outbox.rows), facts, work)
    ensures ok ==> projected == Projections(old(outbox.rows), facts, work) && left + RowCost(old(outbox.rows), facts, work) == calls
  {
    ghost var u;
    ok, left, projected, forgotten, u := ProcessRow(outbox, backend, scope, facts, work, calls, start, w);
    if ok {
      outbox.FinishRow(work, Done);
      v := u.(rows := outbox.rows, drainer := if |u.drainer.claimed| == 1 then Idle else Busy(u.drainer.claimed[1..], Picked));
      DrainsStep(start, u, Finish, v);
    } else {
      outbox.FinishRow(work, Queued);
      v := u.(rows := outbox.rows, drainer := Idle);
      DrainsStep(start, u, Fail(true), v);
    }
  }

  lemma NextWork(works: seq<WorkKey>, i: nat)
    requires i < |works|
    ensures works[i..][1..] == works[i + 1..] && works[i..][0] == works[i]
  {
  }

  /** How things stand when the first `i` claimed rows have got through. */
  ghost predicate Progress(before: map<WorkKey, Row>, rows: map<WorkKey, Row>, facts: map<Key, Fact>, works: seq<WorkKey>,
                           i: nat, calls: nat, left: nat, projected: nat, forgotten: nat) {
    && i <= |works| && (forall k :: k in works ==> k in before) && rows == RowsDone(before, works[..i])
    && NoneStuck(before, facts, works[..i]) && left + CostOf(before, facts, works[..i]) == calls
    && projected == ProjectionsOf(before, facts, works[..i]) && forgotten == DeleteRows(before, works[..i])
  }

  /** The claimed rows are distinct, so this one is untouched. */
  lemma StillClaimed(before: map<WorkKey, Row>, facts: map<Key, Fact>, works: seq<WorkKey>, i: nat)
    requires i < |works| && works[i] in before && forall j, k :: 0 <= j < k < |works| ==> works[j] != works[k]
    ensures var rows := RowsDone(before, works[..i]);
      && works[i] in rows && rows[works[i]] == before[works[i]]
      && Stuck(rows, facts, works[i]) == Stuck(before, facts, works[i])
      && RowCost(rows, facts, works[i]) == RowCost(before, facts, works[i])
      && Projections(rows, facts, works[i]) == Projections(before, facts, works[i])
  {
    RowsDoneSame(before, works[..i]);
    StuckSame(before, RowsDone(before, works[..i]), facts, works[i]);
    ProjectionsSame(before, RowsDone(before, works[..i]), facts, works[i]);
  }

  lemma NoneStuckMore(before: map<WorkKey, Row>, facts: map<Key, Fact>, works: seq<WorkKey>, i: nat)
    requires i < |works| && works[i] in before && NoneStuck(before, facts, works[..i]) && !Stuck(before, facts, works[i])
    ensures NoneStuck(before, facts, works[..i + 1])
  {
    assert works[..i + 1] == works[..i] + [works[i]];
  }

  lemma ProgressMore(before: map<WorkKey, Row>, rows: map<WorkKey, Row>, after: map<WorkKey, Row>, facts: map<Key, Fact>,
                     works: seq<WorkKey>, i: nat, calls: nat, left: nat, projected: nat, forgotten: nat,
                     more: nat, p: nat, f: nat)
    requires i < |works| && Progress(before, rows, facts, works, i, calls, left, projected, forgotten)
    requires works[i] in before && !Stuck(before, facts, works[i]) && more + RowCost(before, facts, works[i]) == left
    requires p == Projections(before, facts, works[i]) && f == if before[works[i]].operation == Delete then 1 else 0
    requires after == rows[works[i] := before[works[i]].(state := Done)]
    ensures Progress(before, after, facts, works, i + 1, calls, more, projected + p, forgotten + f)
  {
    CostNext(before, facts, works, i);
    NoneStuckMore(before, facts, works, i);
    RowDone(before, works, i);
  }

  lemma ProgressFails(before: map<WorkKey, Row>, rows: map<WorkKey, Row>, facts: map<Key, Fact>,
                      works: seq<WorkKey>, i: nat, calls: nat, left: nat, projected: nat, forgotten: nat)
    requires i < |works| && Progress(before, rows, facts, works, i, calls, left, projected, forgotten)
    requires works[i] in before && (Stuck(before, facts, works[i]) || left < RowCost(before, facts, works[i]))
    ensures FailsAt(before, facts, works, calls, i)
    ensures RowsFailed(before, works, i) == rows[works[i] := before[works[i]].(state := Queued)]
  {
  }

  /** One turn of the loop. */
  method DrainTurn(outbox: Outbox, backend: Backend, scope: Scope, facts: map<Key, Fact>, works: seq<WorkKey>, i: nat,
                   left: nat, projected: nat, forgotten: nat,
                   ghost before: map<WorkKey, Row>, ghost calls: nat, ghost start: World, ghost w: World)
    returns (ok: bool, more: nat, p: nat, f: nat, ghost v: World)
    requires i < |works| && works[i] in outbox.rows && works[i] in before
    requires forall j, k :: 0 <= j < k < |works| ==> works[j] != works[k]
    requires Drains(start, w) && Shows(w, outbox, backend, scope, facts) && w.drainer == Busy(works[i..], Picked)
    requires Progress(before, outbox.rows, facts, works, i, calls, left, projected, forgotten)
    modifies outbox, backend
    ensures Drains(start, v) && Shows(v, outbox, backend, scope, facts)
    ensures v.drainer == if ok && i + 1 < |works| then Busy(works[i + 1..], Picked) else Idle
    ensures ok ==> Progress(before, outbox.rows, facts, works, i + 1, calls, more, p, f)
    ensures !ok ==> FailsAt(before, facts, works, calls, i) && outbox.rows == RowsFailed(before, works, i)
    ensures !ok ==> Stuck(before, facts, works[i]) || more == 0
  {
    ghost var rows := outbox.rows;
    NextWork(works, i);
    StillClaimed(before, facts, works, i);
    ok, more, p, f, v := DrainRow(outbox, backend, scope, facts, works[i], left, start, w);
    if ok {
      ProgressMore(before, rows, outbox.rows, facts, works, i, calls, left, projected, forgotten, more, p, f);
      p, f := projected + p, forgotten + f;
    } else {
      ProgressFails(before, rows, facts, works, i, calls, left, projected, forgotten);
    }
  }

  lemma ProgressNone(before: map<WorkKey, Row>, facts: map<Key, Fact>, works: seq<WorkKey>, calls: nat)
    requires forall k :: k in works ==> k in before
    ensures Progress(before, before, facts, works, 0, calls, calls, 0, 0)
  {
    assert works[..0] == [];
    assert RowsDone(before, []) == before;
  }

  lemma ProgressAll(before: map<WorkKey, Row>, rows: map<WorkKey, Row>, facts: map<Key, Fact>, works: seq<WorkKey>,
                    calls: nat, left: nat, projected: nat, forgotten: nat)
    requires Progress(before, rows, facts, works, |works|, calls, left, projected, forgotten)
    ensures rows == RowsDone(before, works) && GoesThrough(before, facts, works, calls)
    ensures left + CostOf(before, facts, works) == calls
    ensures projected == ProjectionsOf(before, facts, works) && forgotten == DeleteRows(before, works)
  {
    assert works[..|works|] == works;
  }

  /** The drain's loop over its claimed rows. */
  method DrainRows(outbox: Outbox, backend: Backend, scope: Scope, facts: map<Key, Fact>, works: seq<WorkKey>, calls: nat,
                   ghost start: World, ghost w: World)
    returns (ok: bool, left: nat, projected: nat, forgotten: nat, ghost v: World, ghost failed: nat)
    requires Drains(start, w) && Shows(w, outbox, backend, scope, facts)
    requires w.drainer == if works == [] then Idle else Busy(works, Picked)
    requires forall k :: k in works ==> k in outbox.rows
    requires forall j, k :: 0 <= j < k < |works| ==> works[j] != works[k]
    modifies outbox, backend
    ensures Drains(start, v) && v.drainer.Idle? && Shows(v, outbox, backend, scope, facts)
    ensures ok ==> Progress(old(outbox.rows), outbox.rows, facts, works, |works|, calls, left, projected, forgotten)
    ensures !ok ==> FailsAt(old(outbox.rows), facts, works, calls, failed)
    ensures !ok ==> outbox.rows == RowsFailed(old(outbox.rows), works, failed)
    ensures !ok ==> Stuck(old(outbox.rows), facts, works[failed]) || left == 0
  {
    v := w;
    left, projected, forgotten := calls, 0, 0;
    ghost var before := outbox.rows;
    ProgressNone(before, facts, works, calls);
    var i := 0;
    while i < |works|
      invariant i <= |works|
      invariant Drains(start, v) && Shows(v, outbox, backend, scope, facts)
      invariant v.drainer == if i < |works| then Busy(works[i..], Picked) else Idle
      invariant Progress(before, outbox.rows, facts, works, i, calls, left, projected, forgotten)
    {
      ok, left, projected, forgotten, v :=
        DrainTurn(outbox, backend, scope, facts, works, i, left, projected, forgotten, before, calls, start, v);
      if !ok {
        failed := i;
        return;
      }
      i := i + 1;
    }
    ok, failed := true, 0;
  }

  lemma DrainsClaim(w: World, v: World, works: seq<WorkKey>)
    requires Next(w, Claim(works), v)
    ensures Drains(w, v)
  {
    DrainsNothing(w);
    DrainsStep(w, w, Claim(works), v);
  }

  /** The bound on a drain's rows. */
  function Bounded(limit: int): (r: nat)
    ensures 1 <= r <= 256 && (1 <= limit <= 256 ==> r == limit) && (limit < 1 ==> r == 1) && (limit > 256 ==> r == 256)
  {
    if limit < 1 then 1 else if limit > MAX_DRAIN_ITEMS then MAX_DRAIN_ITEMS else limit
  }

  /** `drain_projection_outbox`, when `calls` more backend and ledger calls succeed. Failing or not, it takes the
      outbox through drain steps only and leaves no claim behind. It succeeds if and only if none of the rows that it
      claims is stuck and the calls suffice; what it reports and what it leaves is given exactly by `Outcome`. */
  method Drain(outbox: Outbox, backend: Backend, scope: Scope, facts: map<Key, Fact>, limit: int, calls: nat, ghost w: World)
    returns (r: Result<DrainReport, string>, left: nat, ghost v: World)
    requires w.drainer.Idle? && Shows(w, outbox, backend, scope, facts)
    modifies outbox, backend
    ensures Drains(w, v) && v.drainer.Idle? && Shows(v, outbox, backend, scope, facts)
    ensures DrainsTo(old(outbox.rows), facts, Bounded(limit), calls, outbox.rows, ReportOf(r), left)
  {
    ghost var before := outbox.rows;
    var works := outbox.ClaimRows(Bounded(limit));
    ghost var claimed := w.(rows := outbox.rows, drainer := if works == [] then Idle else Busy(works, Picked));
    DrainsClaim(w, claimed, works);
    var ok, projected, forgotten;
    ghost var failed;
    ok, left, projected, forgotten, v, failed := DrainRows(outbox, backend, scope, facts, works, calls, w, claimed);
    if ok {
      ProgressAll(Processed(before, works), outbox.rows, facts, works, calls, left, projected, forgotten);
      OutcomeDone(before, facts, Bounded(limit), calls, works, left, projected, forgotten);
      r := Success(DrainReport(|works|, projected, forgotten));
    } else {
      OutcomeFailed(before, facts, Bounded(limit), calls, works, failed, left);
      r := Failure("projection_outbox_processing_failed");
    }
  }

  function ReportOf(r: Result<DrainReport, string>): Option<DrainReport> {
    if r.Success? then Some(r.value) else None
  }

  /** Once every mutation has its row, a drain that succeeds within its limit leaves the index right about
      every fact this dataset wrote last. */
  lemma DrainedMeansSettled(w: World, v: World, k: Key)
    requires Inv(w) && w.unqueued == map[] && Drains(w, v)
    requires forall x :: x in v.rows ==> v.rows[x].state == Done
    requires Tracked(v, k)
    ensures Settled(v, k)
  {
    DrainsKeep(w, v);
    DrainsUnqueued(w, v);
  }

  lemma DrainsUnqueued(w: World, v: World)
    requires Drains(w, v)
    ensures v.unqueued == w.unqueued
  {
    var trail: seq<World>, actions: seq<Action> :|
      Run(trail, actions) && trail[0] == w && trail[|trail| - 1] == v && forall a :: a in actions ==> !ByWriter(a);
    DrainersUnqueued(trail, actions, |trail| - 1);
  }

  lemma {:induction false} DrainersUnqueued(trail: seq<World>, actions: seq<Action>, i: nat)
    requires Run(trail, actions) && i < |trail| && forall a :: a in actions ==> !ByWriter(a)
    ensures trail[i].unqueued == trail[0].unqueued
  {
    if i > 0 {
      DrainersUnqueued(trail, actions, i - 1);
      StepFrame(trail[i - 1], actions[i - 1], trail[i]);
    }
  }
}
