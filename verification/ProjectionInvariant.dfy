/** What every step of the outbox keeps, and what therefore holds whenever nothing is pending. */
module ProjectionInvariant {
  import opened Common
  import opened CanonicalRef
  import opened ProjectionOutbox

  predicate CleanKey(k: Key) {
    SafeKey(k) && ColonFree(k)
  }

  /** Every mutation names its fact by safe tokens, which may hold colons. */
  predicate Safe(a: Action) {
    a.Mutate? || a.MutateElsewhere? ==> SafeKey(a.key)
  }

  ghost predicate Tracked(w: World, k: Key) {
    CleanKey(k) && k !in w.foreign
  }

  ghost predicate Matches(w: World, k: Key, e: Event) {
    k in w.facts && Mirrors(e, Render(k), w.facts[k])
  }

  /** The index says about `k` what the canonical store says. */
  ghost predicate Settled(w: World, k: Key) {
    if k in w.facts then Render(k) in w.index && Matches(w, k, w.index[Render(k)])
    else Render(k) !in w.index
  }

  function Latest(w: World, k: Key): WorkKey
    requires Render(k) in w.last
  {
    WorkKey(Render(k), w.last[Render(k)])
  }

  ghost predicate LatestPending(w: World, k: Key) {
    Render(k) in w.last && Pending(w, Latest(w, k))
  }

  ghost predicate LatestPendingBut(w: World, k: Key, cur: WorkKey) {
    LatestPending(w, k) && Latest(w, k) != cur
  }

  predicate DeletePending(w: World) {
    exists d :: d in w.rows && w.rows[d].state != Done && w.rows[d].operation == Delete
  }

  predicate DeletePendingBut(w: World, cur: WorkKey) {
    exists d :: d in w.rows && d != cur && w.rows[d].state != Done && w.rows[d].operation == Delete
  }

  /** Either the index is right about `k`, or work other than `cur` will still put it right. */
  ghost predicate Covered(w: World, k: Key, cur: WorkKey) {
    Settled(w, k) || LatestPendingBut(w, k, cur) || DeletePendingBut(w, cur)
  }

  function OpOf(w: World, x: WorkKey): Operation
    requires x in w.rows || x in w.unqueued
  {
    if x in w.rows then w.rows[x].operation else w.unqueued[x]
  }

  ghost predicate TableOk(w: World) {
    && (forall x :: x in w.rows || x in w.unqueued ==> x.ref in w.last && x.revision <= w.last[x.ref])
    && (forall r :: r in w.last ==> w.last[r] <= w.revision
                                    && (WorkKey(r, w.last[r]) in w.rows || WorkKey(r, w.last[r]) in w.unqueued))
    && w.rows.Keys !! w.unqueued.Keys
  }

  /** The newest mutation of a fact says whether the fact exists. */
  ghost predicate FactsOk(w: World) {
    && (forall k :: k in w.facts ==> SafeKey(k))
    && (forall k :: Tracked(w, k) && Render(k) in w.last
                    && (Latest(w, k) in w.rows || Latest(w, k) in w.unqueued) ==>
          (k in w.facts <==> OpOf(w, Latest(w, k)) == Put))
    && (forall k :: Tracked(w, k) && Render(k) !in w.last ==> k !in w.facts)
  }

  ghost predicate CoverOk(w: World) {
    forall k :: Tracked(w, k) ==> Settled(w, k) || LatestPending(w, k) || DeletePending(w)
  }

  /** A DONE row is covered by the ledger. */
  ghost predicate DoneOk(w: World) {
    forall x :: x in w.rows && w.rows[x].state == Done ==> x.revision <= w.ledger
  }

  /** What is true at each point inside a row. */
  ghost predicate PhaseOk(w: World, cur: WorkKey, op: Operation, p: Phase) {
    match p
    case Picked => true
    case Wiped => op == Delete && w.index == map[]
    case Rebuilding(refs) =>
      op == Delete && forall k :: Tracked(w, k) ==> Covered(w, k, cur) || (Render(k) in refs && k in w.facts)
    case Rebuilt(refs, event) =>
      && op == Delete
      && forall k :: Tracked(w, k) ==>
           if event.Some? && event.value.ref == Render(k) then
             Matches(w, k, event.value) || LatestPendingBut(w, k, cur)
           else Covered(w, k, cur) || (Render(k) in refs && k in w.facts)
    case Loaded(event) =>
      && op == Put
      && (event.Some? ==> event.value.ref == cur.ref)
      && forall k :: Tracked(w, k) && Render(k) == cur.ref ==>
           if event.Some? then Matches(w, k, event.value) || LatestPendingBut(w, k, cur)
           else Covered(w, k, cur)
    case Handled =>
      forall k :: Tracked(w, k) ==> Covered(w, k, cur)
    case Marked =>
      && cur.revision <= w.ledger
      && forall k :: Tracked(w, k) ==> Covered(w, k, cur)
  }

  ghost predicate DrainerOk(w: World) {
    w.drainer.Busy? ==>
      && w.drainer.claimed != [] && Claimable(w.rows, w.drainer.claimed)
      && PhaseOk(w, Head(w), w.rows[Head(w)].operation, w.drainer.phase)
  }

  ghost predicate Inv(w: World) {
    TableOk(w) && FactsOk(w) && CoverOk(w) && DoneOk(w) && DrainerOk(w)
  }

  lemma StartInv()
    ensures Inv(START)
  {
  }

  /** A name that reads back at all reads back as the fact it was made from. */
  lemma TargetOfName(k: Key)
    requires CleanKey(k)
    ensures Target(Render(k)) == None || Target(Render(k)) == Some(k)
  {
    TargetRender(k);
  }

  /** What a step of the writers leaves alone: everything the drainer owns, and every tracked fact
      except those whose newest mutation has no row yet. */
  ghost predicate WriterStep(w: World, v: World) {
    && v.drainer == w.drainer && v.index == w.index && v.ledger == w.ledger
    && (forall x :: x in w.rows ==> x in v.rows && v.rows[x] == w.rows[x])
    && (forall x :: x in v.rows && x !in w.rows ==> v.rows[x].state == Queued)
    && (forall x :: Pending(w, x) ==> Pending(v, x))
    && (forall k :: Tracked(v, k) ==> SameFor(w, v, k) || Renewed(w, v, k))
  }

  ghost predicate SameFor(w: World, v: World, k: Key) {
    && Tracked(w, k) && Lookup(v.facts, k) == Lookup(w.facts, k)
    && Lookup(v.last, Render(k)) == Lookup(w.last, Render(k))
  }

  ghost predicate Renewed(w: World, v: World, k: Key) {
    LatestPending(v, k) && Latest(v, k) !in w.rows
  }

  lemma SameCarries(w: World, v: World, k: Key)
    requires WriterStep(w, v) && SameFor(w, v, k)
    ensures Settled(w, k) ==> Settled(v, k)
    ensures LatestPending(w, k) ==> LatestPending(v, k) && Latest(v, k) == Latest(w, k)
    ensures forall e :: Matches(w, k, e) ==> Matches(v, k, e)
  {
    assert k in v.facts <==> k in w.facts;
    assert Render(k) in v.last <==> Render(k) in w.last;
  }

  lemma DeleteCarries(w: World, v: World, cur: WorkKey)
    requires WriterStep(w, v)
    ensures DeletePending(w) ==> DeletePending(v)
    ensures DeletePendingBut(w, cur) ==> DeletePendingBut(v, cur)
  {
  }

  lemma CoveredCarries(w: World, v: World, k: Key, cur: WorkKey)
    requires WriterStep(w, v) && Tracked(v, k) && cur in w.rows
    requires SameFor(w, v, k) ==> Covered(w, k, cur)
    ensures Covered(v, k, cur)
  {
    DeleteCarries(w, v, cur);
    if SameFor(w, v, k) { SameCarries(w, v, k); }
  }

  lemma PhaseCarries(w: World, v: World, cur: WorkKey, op: Operation, p: Phase)
    requires WriterStep(w, v) && PhaseOk(w, cur, op, p) && cur in w.rows
    ensures PhaseOk(v, cur, op, p)
  {
    forall k | Tracked(v, k)
      ensures SameFor(w, v, k) || LatestPendingBut(v, k, cur)
      ensures SameFor(w, v, k) && Covered(w, k, cur) ==> Covered(v, k, cur)
      ensures SameFor(w, v, k) && LatestPendingBut(w, k, cur) ==> LatestPendingBut(v, k, cur)
      ensures SameFor(w, v, k) ==> Tracked(w, k) && (k in w.facts ==> k in v.facts) && forall e :: Matches(w, k, e) ==> Matches(v, k, e)
    {
      if SameFor(w, v, k) {
        SameCarries(w, v, k);
        if Covered(w, k, cur) { CoveredCarries(w, v, k, cur); }
      }
    }
  }

  /** A writer's step keeps everything the drainer relies on. */
  lemma WriterKeeps(w: World, v: World)
    requires Inv(w) && WriterStep(w, v)
    ensures CoverOk(v) && DoneOk(v) && DrainerOk(v)
  {
    forall k | Tracked(v, k)
      ensures Settled(v, k) || LatestPending(v, k) || DeletePending(v)
    {
      if SameFor(w, v, k) { SameCarries(w, v, k); }
      if w.rows != map[] { var c :| c in w.rows; DeleteCarries(w, v, c); }
    }
    if w.drainer.Busy? {
      PhaseCarries(w, v, Head(w), w.rows[Head(w)].operation, w.drainer.phase);
    }
  }

  lemma MutateFrame(w: World, key: Key, value: Option<string>, v: World, k: Key)
    requires Inv(w) && Next(w, Mutate(key, value), v) && Tracked(v, k)
    ensures if k == key then Renewed(w, v, k) && Latest(v, k) in v.unqueued && v.unqueued[Latest(v, k)] == OperationOf(value)
            else SameFor(w, v, k)
  {
    var work := WorkKey(Render(key), w.revision + 1);
    assert work !in w.rows && work !in w.unqueued;
    if k != key {
      OtherName(key, k);
    }
  }

  /** A tracked fact other than the one mutated has another name. */
  lemma OtherName(key: Key, k: Key)
    requires ColonFree(k) && k != key && k !in Overwritten(key)
    ensures Render(k) != Render(key)
  {
    if Render(k) == Render(key) {
      CutOfRender(k);
      CutOfRender(key);
    }
  }

  lemma MutateTable(w: World, key: Key, value: Option<string>, v: World)
    requires Inv(w) && Next(w, Mutate(key, value), v)
    ensures TableOk(v)
  {
    var work := WorkKey(Render(key), w.revision + 1);
    assert work !in w.rows && work !in w.unqueued;
  }

  /** What a mutation of `key` does for the tracked fact `k`. */
  ghost predicate FactAfter(w: World, key: Key, value: Option<string>, v: World, k: Key) {
    && (if k == key then
          Renewed(w, v, k) && Render(k) in v.last && Latest(v, k) in v.unqueued && v.unqueued[Latest(v, k)] == OperationOf(value)
        else SameFor(w, v, k))
    && (Render(k) in v.last && (Latest(v, k) in v.rows || Latest(v, k) in v.unqueued) ==>
          (k in v.facts <==> OpOf(v, Latest(v, k)) == Put))
    && (Render(k) !in v.last ==> k !in v.facts)
  }

  lemma MutateFact(w: World, key: Key, value: Option<string>, v: World, k: Key)
    requires Inv(w) && SafeKey(key) && Next(w, Mutate(key, value), v) && Tracked(v, k)
    ensures FactAfter(w, key, value, v, k)
  {
    var work := WorkKey(Render(key), w.revision + 1);
    assert work !in w.rows && work !in w.unqueued;
    MutateFrame(w, key, value, v, k);
    if k == key {
      assert Latest(v, k) == work && work !in v.rows;
    } else {
      OtherName(key, k);
      assert k in v.facts <==> k in w.facts;
      assert Render(k) in v.last <==> Render(k) in w.last;
      if Render(k) in v.last {
        assert Latest(v, k) == Latest(w, k) && Latest(w, k) != work;
      }
    }
  }

  lemma MutateFacts(w: World, key: Key, value: Option<string>, v: World)
    requires Inv(w) && SafeKey(key) && Next(w, Mutate(key, value), v)
    ensures FactsOk(v) && WriterStep(w, v)
  {
    forall k | Tracked(v, k)
      ensures FactAfter(w, key, value, v, k)
    {
      MutateFact(w, key, value, v, k);
    }
    assert forall k :: k in v.facts ==> k in w.facts || k == key;
  }

  lemma MutateKeeps(w: World, key: Key, value: Option<string>, v: World)
    requires Inv(w) && SafeKey(key) && Next(w, Mutate(key, value), v)
    ensures Inv(v)
  {
    MutateTable(w, key, value, v);
    MutateFacts(w, key, value, v);
    WriterKeeps(w, v);
  }

  lemma MutateElsewhereStep(w: World, key: Key, value: Option<string>, v: World)
    requires Inv(w) && Next(w, MutateElsewhere(key, value), v)
    ensures WriterStep(w, v)
  {
    assert forall k :: Tracked(v, k) ==> Tracked(w, k) && k != key;
    assert forall k :: Tracked(v, k) ==> SameFor(w, v, k);
  }

  lemma MutateElsewhereTable(w: World, key: Key, value: Option<string>, v: World)
    requires Inv(w) && SafeKey(key) && Next(w, MutateElsewhere(key, value), v)
    ensures TableOk(v) && FactsOk(v)
  {
    assert forall k :: Tracked(v, k) ==> Tracked(w, k) && k != key;
    assert forall x :: x in w.rows || x in w.unqueued ==> OpOf(v, x) == OpOf(w, x);
  }

  /** A mutation through another dataset takes its fact out of the tracked ones. */
  lemma MutateElsewhereKeeps(w: World, key: Key, value: Option<string>, v: World)
    requires Inv(w) && SafeKey(key) && Next(w, MutateElsewhere(key, value), v)
    ensures Inv(v)
  {
    MutateElsewhereStep(w, key, value, v);
    MutateElsewhereTable(w, key, value, v);
    WriterKeeps(w, v);
  }

  lemma EnqueueFacts(w: World, work: WorkKey, v: World)
    requires Inv(w) && Next(w, Enqueue(work), v)
    ensures FactsOk(v)
  {
    forall k | Tracked(v, k)
      ensures Render(k) in v.last && (Latest(v, k) in v.rows || Latest(v, k) in v.unqueued) ==>
                (k in v.facts <==> OpOf(v, Latest(v, k)) == Put)
    {
      if Render(k) in v.last && (Latest(v, k) in v.rows || Latest(v, k) in v.unqueued) {
        assert Latest(v, k) == Latest(w, k);
        assert OpOf(v, Latest(v, k)) == OpOf(w, Latest(w, k));
      }
    }
  }

  lemma EnqueueTable(w: World, work: WorkKey, v: World)
    requires Inv(w) && Next(w, Enqueue(work), v)
    ensures TableOk(v)
  {
    assert forall x :: x in v.rows || x in v.unqueued <==> x in w.rows || x in w.unqueued;
  }

  lemma EnqueueStep(w: World, work: WorkKey, v: World)
    requires Inv(w) && Next(w, Enqueue(work), v)
    ensures WriterStep(w, v)
  {
    assert work !in w.rows;
    assert forall k :: Tracked(v, k) ==> SameFor(w, v, k);
  }

  lemma EnqueueKeeps(w: World, work: WorkKey, v: World)
    requires Inv(w) && Next(w, Enqueue(work), v)
    ensures Inv(v)
  {
    EnqueueFacts(w, work, v);
    EnqueueTable(w, work, v);
    EnqueueStep(w, work, v);
    WriterKeeps(w, v);
  }

  // ---- the drainer's own steps ------------------------------------------------------------------

  lemma ClaimTable(w: World, works: seq<WorkKey>, v: World)
    requires Inv(w) && Next(w, Claim(works), v)
    ensures TableOk(v) && FactsOk(v) && DoneOk(v)
  {
    RowStateKeeps(w, v);
  }

  lemma ClaimCover(w: World, works: seq<WorkKey>, v: World)
    requires Inv(w) && Next(w, Claim(works), v)
    ensures CoverOk(v)
  {
    assert forall x :: Pending(v, x) == Pending(w, x);
    if DeletePending(w) {
      var d :| d in w.rows && w.rows[d].state != Done && w.rows[d].operation == Delete;
      assert d in v.rows && v.rows[d].state != Done && v.rows[d].operation == Delete;
    }
    forall k | Tracked(v, k)
      ensures Settled(v, k) || LatestPending(v, k) || DeletePending(v)
    {
      assert Tracked(w, k) && Settled(v, k) == Settled(w, k) && LatestPending(v, k) == LatestPending(w, k);
    }
  }

  lemma ClaimKeeps(w: World, works: seq<WorkKey>, v: World)
    requires Inv(w) && Next(w, Claim(works), v)
    ensures Inv(v)
  {
    ClaimTable(w, works, v);
    ClaimCover(w, works, v);
  }

  /** The steps between Claim and Finish change neither facts, table nor history; the table, the facts and
      the DONE rows stay right, and it remains to look at the index. */
  ghost predicate InsideRow(w: World, v: World) {
    && w.drainer.Busy? && v == w.(index := v.index, ledger := v.ledger, drainer := v.drainer)
    && w.ledger <= v.ledger
    && v.drainer.Busy? && v.drainer.claimed == w.drainer.claimed
  }

  lemma InsideRowKeeps(w: World, v: World)
    requires Inv(w) && InsideRow(w, v)
    requires forall k :: Tracked(v, k) ==> Settled(v, k) || LatestPending(v, k) || DeletePending(v)
    requires PhaseOk(v, Head(w), w.rows[Head(w)].operation, v.drainer.phase)
    ensures Inv(v)
  {
    assert forall x :: Pending(v, x) == Pending(w, x);
    assert TableOk(v);
    assert FactsOk(v) by {
      assert forall x :: x in w.rows || x in w.unqueued ==> OpOf(v, x) == OpOf(w, x);
    }
  }

  lemma ForgetKeeps(w: World, v: World)
    requires Inv(w) && Next(w, Forget, v)
    ensures Inv(v)
  {
    assert Head(w) in w.drainer.claimed;
    assert DeletePending(v);
    InsideRowKeeps(w, v);
  }

  /** After the wipe every existing fact is on the list or has newer work of its own. */
  lemma ListRefsKeeps(w: World, v: World)
    requires Inv(w) && Next(w, ListRefs, v)
    ensures Inv(v)
  {
    var cur := Head(w);
    var refs := v.drainer.phase.refs;
    assert cur in w.drainer.claimed;
    assert DeletePending(v);
    forall k | Tracked(v, k)
      ensures Covered(v, k, cur) || (Render(k) in refs && k in v.facts)
    {
      if k in v.facts {
        assert Render(k) in v.last;
        var x := Latest(w, k);
        assert OpOf(w, x) == Put;
        if x in w.rows {
          assert Active(w.rows, x.ref);
        } else {
          assert LatestPendingBut(v, k, cur);
        }
      }
    }
    InsideRowKeeps(w, v);
  }

  /** Reading a put row's fact: what was read is current, or the fact is gone and this row is not its
      newest work. */
  lemma LoadPutKeeps(w: World, v: World)
    requires Inv(w) && Next(w, Load, v) && w.drainer.phase == Picked
    ensures Inv(v)
  {
    var cur := Head(w);
    assert cur in w.drainer.claimed;
    var r := ReadEvent(w.facts, cur.ref);
    forall k | Tracked(v, k) && Render(k) == cur.ref
      ensures if r.value.Some? then Matches(v, k, r.value.value) else Covered(v, k, cur)
    {
      TargetOfName(k);
      if r.value.None? {
        assert OpOf(w, cur) == Put && OpOf(w, Latest(w, k)) == Delete;
        assert Settled(w, k) || LatestPending(w, k) || DeletePending(w);
        assert LatestPending(w, k) ==> LatestPendingBut(v, k, cur);
        if DeletePending(w) {
          var d :| d in w.rows && w.rows[d].state != Done && w.rows[d].operation == Delete;
          assert d != cur;
          assert DeletePendingBut(v, cur);
        }
      }
    }
    InsideCover(w, v);
    InsideRowKeeps(w, v);
  }

  /** While the index is untouched, so is its agreement with the facts. */
  lemma InsideCover(w: World, v: World)
    requires CoverOk(w) && InsideRow(w, v) && v.index == w.index
    ensures forall k :: Tracked(v, k) ==> Settled(v, k) || LatestPending(v, k) || DeletePending(v)
  {
    forall k | Tracked(v, k)
      ensures Settled(v, k) || LatestPending(v, k) || DeletePending(v)
    {
      assert Tracked(w, k);
      assert Settled(w, k) ==> Settled(v, k);
      assert LatestPending(w, k) ==> LatestPending(v, k);
    }
  }

  /** One name of the list has been read. */
  lemma ReadOfList(w: World, v: World, k: Key, cur: WorkKey, refs: seq<string>, event: Option<Event>)
    requires refs != [] && ReadEvent(w.facts, refs[0]) == Success(event) && CleanKey(k)
    requires v == w.(drainer := v.drainer)
    requires Covered(w, k, cur) || (Render(k) in refs && k in w.facts)
    ensures if event.Some? && event.value.ref == Render(k) then Matches(v, k, event.value)
            else Covered(v, k, cur) || (Render(k) in refs[1..] && k in v.facts)
  {
    TargetOfName(k);
    assert refs == [refs[0]] + refs[1..];
    assert Covered(w, k, cur) ==> Covered(v, k, cur);
  }

  lemma LoadRebuildKeeps(w: World, v: World)
    requires Inv(w) && Next(w, Load, v) && w.drainer.phase != Picked
    ensures Inv(v)
  {
    var cur := Head(w);
    assert cur in w.drainer.claimed;
    var refs := w.drainer.phase.refs;
    var r := ReadEvent(w.facts, refs[0]);
    forall k | Tracked(v, k)
      ensures if r.value.Some? && r.value.value.ref == Render(k) then Matches(v, k, r.value.value)
              else Covered(v, k, cur) || (Render(k) in refs[1..] && k in v.facts)
    {
      assert Tracked(w, k);
      ReadOfList(w, v, k, cur, refs, r.value);
    }
    InsideCover(w, v);
    InsideRowKeeps(w, v);
  }

  lemma RenderApart(w: World, k: Key, e: Event, v: World)
    requires v.index == w.index[e.ref := e] && v.facts == w.facts
    ensures if e.ref == Render(k) then Matches(w, k, e) ==> Settled(v, k) else Settled(w, k) ==> Settled(v, k)
  {
  }

  lemma ProjectFrame(w: World, v: World)
    requires Next(w, Project, v)
    ensures w.drainer.Busy? && (w.drainer.phase.Loaded? || w.drainer.phase.Rebuilt?)
    ensures v.index == Put1(w.index, w.drainer.phase.event)
    ensures v == w.(index := v.index, drainer := v.drainer)
    ensures v.drainer.Busy? && v.drainer.claimed == w.drainer.claimed != []
  {
  }

  lemma PendingSame(w: World, v: World, k: Key, cur: WorkKey)
    requires v == w.(index := v.index, drainer := v.drainer)
    ensures LatestPendingBut(w, k, cur) ==> LatestPendingBut(v, k, cur)
    ensures LatestPending(w, k) ==> LatestPending(v, k)
    ensures DeletePendingBut(w, cur) ==> DeletePendingBut(v, cur)
    ensures DeletePending(w) ==> DeletePending(v)
  {
  }

  /** Projecting changes the index under one name only. */
  lemma ProjectOne(w: World, v: World, k: Key, cur: WorkKey)
    requires Inv(w) && Next(w, Project, v) && Tracked(v, k) && cur == Head(w)
    ensures if w.drainer.phase.event.Some? && w.drainer.phase.event.value.ref == Render(k) then
              Matches(w, k, w.drainer.phase.event.value) ==> Settled(v, k)
            else Settled(w, k) ==> Settled(v, k)
    ensures LatestPendingBut(w, k, cur) ==> LatestPendingBut(v, k, cur)
    ensures LatestPending(w, k) ==> LatestPending(v, k)
    ensures DeletePendingBut(w, cur) ==> DeletePendingBut(v, cur)
    ensures DeletePending(w) ==> DeletePending(v)
  {
    ProjectFrame(w, v);
    PendingSame(w, v, k, cur);
    var event := w.drainer.phase.event;
    if event.Some? {
      RenderApart(w, k, event.value, v);
    }
  }

  lemma ProjectRebuildKeeps(w: World, v: World)
    requires Inv(w) && Next(w, Project, v) && w.drainer.phase.Rebuilt?
    ensures Inv(v)
  {
    var cur := Head(w);
    assert cur in w.drainer.claimed;
    assert DeletePending(v);
    forall k | Tracked(v, k)
      ensures Covered(v, k, cur) || (Render(k) in w.drainer.phase.refs && k in v.facts)
    {
      assert Tracked(w, k);
      ProjectOne(w, v, k, cur);
    }
    InsideRowKeeps(w, v);
  }

  lemma ProjectPutKeeps(w: World, v: World)
    requires Inv(w) && Next(w, Project, v) && w.drainer.phase.Loaded?
    ensures Inv(v)
  {
    var cur := Head(w);
    assert cur in w.drainer.claimed;
    forall k | Tracked(v, k)
      ensures Covered(v, k, cur)
      ensures Settled(v, k) || LatestPending(v, k) || DeletePending(v)
    {
      assert Tracked(w, k);
      ProjectOne(w, v, k, cur);
      assert Settled(w, k) || LatestPending(w, k) || DeletePending(w);
      if Render(k) != cur.ref {
        assert LatestPending(w, k) ==> LatestPendingBut(w, k, cur);
        if DeletePending(w) {
          var d :| d in w.rows && w.rows[d].state != Done && w.rows[d].operation == Delete;
          assert d != cur;
        }
      }
    }
    InsideRowKeeps(w, v);
  }

  lemma MarkKeeps(w: World, v: World)
    requires Inv(w) && Next(w, Mark, v)
    ensures Inv(v)
  {
    var cur := Head(w);
    assert cur in w.drainer.claimed;
    forall k | Tracked(v, k)
      ensures Covered(v, k, cur)
    {
      assert Tracked(w, k);
      assert Covered(w, k, cur);
    }
    InsideCover(w, v);
    InsideRowKeeps(w, v);
  }

  lemma FinishCovers(w: World, v: World, k: Key, cur: WorkKey)
    requires Tracked(w, k) && Covered(w, k, cur) && cur in w.rows
    requires v == w.(rows := w.rows[cur := w.rows[cur].(state := Done)], drainer := v.drainer)
    ensures Settled(v, k) || LatestPending(v, k) || DeletePending(v)
  {
    if Settled(w, k) {
      assert Settled(v, k);
    } else if LatestPendingBut(w, k, cur) {
      assert Latest(v, k) == Latest(w, k) && Pending(v, Latest(v, k));
    } else {
      var d :| d in w.rows && d != cur && w.rows[d].state != Done && w.rows[d].operation == Delete;
      assert d in v.rows && v.rows[d].state != Done && v.rows[d].operation == Delete;
    }
  }

  lemma FinishCover(w: World, v: World)
    requires Inv(w) && Next(w, Finish, v)
    ensures CoverOk(v)
  {
    var cur := Head(w);
    assert cur in w.drainer.claimed;
    forall k | Tracked(v, k)
      ensures Settled(v, k) || LatestPending(v, k) || DeletePending(v)
    {
      assert Tracked(w, k);
      FinishCovers(w, v, k, cur);
    }
  }

  /** Finishing a row uses up one piece of pending work that nothing relies on any more. */
  lemma FinishKeeps(w: World, v: World)
    requires Inv(w) && Next(w, Finish, v)
    ensures Inv(v)
  {
    var claimed := w.drainer.claimed;
    assert Head(w) in claimed;
    assert claimed == [Head(w)] + claimed[1..];
    FinishCover(w, v);
    RowStateKeeps(w, v);
  }

  /** Changing the state of rows changes nothing about what the rows say. */
  lemma RowStateKeeps(w: World, v: World)
    requires TableOk(w) && FactsOk(w)
    requires v == w.(rows := v.rows, drainer := v.drainer)
    requires v.rows.Keys == w.rows.Keys && forall x :: x in w.rows ==> v.rows[x].operation == w.rows[x].operation
    ensures TableOk(v) && FactsOk(v)
  {
    assert forall x :: x in w.rows || x in w.unqueued ==> OpOf(v, x) == OpOf(w, x);
  }

  lemma FailKeeps(w: World, requeued: bool, v: World)
    requires Inv(w) && Next(w, Fail(requeued), v)
    ensures Inv(v)
  {
    assert Head(w) in w.drainer.claimed;
    RowStateKeeps(w, v);
    assert forall x :: Pending(v, x) == Pending(w, x);
    forall k | Tracked(v, k)
      ensures Settled(v, k) || LatestPending(v, k) || DeletePending(v)
    {
      assert Tracked(w, k);
      assert Settled(w, k) ==> Settled(v, k);
      assert LatestPending(w, k) ==> LatestPending(v, k);
      if DeletePending(w) {
        var d :| d in w.rows && w.rows[d].state != Done && w.rows[d].operation == Delete;
        assert d in v.rows && v.rows[d].state != Done && v.rows[d].operation == Delete;
      }
    }
  }

  /** Every step, by whoever takes it, keeps the invariant. */
  lemma StepKeeps(w: World, a: Action, v: World)
    requires Inv(w) && Safe(a) && Next(w, a, v)
    ensures Inv(v)
  {
    match a
    case Mutate(key, value) => MutateKeeps(w, key, value, v);
    case MutateElsewhere(key, value) => MutateElsewhereKeeps(w, key, value, v);
    case Enqueue(work) => EnqueueKeeps(w, work, v);
    case Claim(works) => ClaimKeeps(w, works, v);
    case Forget => ForgetKeeps(w, v);
    case ListRefs => ListRefsKeeps(w, v);
    case Load => if w.drainer.phase == Picked { LoadPutKeeps(w, v); } else { LoadRebuildKeeps(w, v); }
    case Project => if w.drainer.phase.Rebuilt? { ProjectRebuildKeeps(w, v); } else { ProjectPutKeeps(w, v); }
    case Mark => MarkKeeps(w, v);
    case Finish => FinishKeeps(w, v);
    case Fail(requeued) => FailKeeps(w, requeued, v);
  }

  lemma {:induction false} RunKeeps(trail: seq<World>, actions: seq<Action>, i: nat)
    requires Run(trail, actions) && Inv(trail[0]) && i < |trail|
    requires forall a :: a in actions ==> Safe(a)
    ensures Inv(trail[i])
  {
    if i > 0 {
      RunKeeps(trail, actions, i - 1);
      StepKeeps(trail[i - 1], actions[i - 1], trail[i]);
    }
  }
}
