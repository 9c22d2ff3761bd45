/** What a fact looks like in the index of a dataset that another dataset writes past, and how long. */
module ProjectionStale {
  import opened Common
  import opened CanonicalRef
  import opened ProjectionOutbox
  import opened ProjectionInvariant
  import opened ProjectionTheorems

  /** The index has an older revision of the fact, or one of a fact that is gone. */
  ghost predicate Stale(w: World, k: Key) {
    Render(k) in w.index && (k in w.facts ==> w.index[Render(k)].revision < w.facts[k].revision)
  }

  lemma StaleIsUnsettled(w: World, k: Key)
    requires Stale(w, k)
    ensures !Settled(w, k)
  {
  }

  ghost predicate RevisionsOk(w: World) {
    && (forall k :: k in w.facts ==> w.facts[k].revision <= w.revision)
    && (forall r :: r in w.index ==> w.index[r].revision <= w.revision)
    && (w.drainer.Busy? ==>
          match w.drainer.phase
          case Rebuilt(_, event) => event.Some? ==> event.value.revision <= w.revision
          case Loaded(event) => event.Some? ==> event.value.revision <= w.revision
          case _ => true)
  }

  lemma ReadRevision(w: World, ref: string)
    requires RevisionsOk(w)
    ensures var r := ReadEvent(w.facts, ref); r.Success? && r.value.Some? ==> r.value.value.revision <= w.revision
  {
  }

  lemma FactsFrame(w: World, a: Action, v: World)
    requires Next(w, a, v) && !a.Mutate? && !a.MutateElsewhere?
    ensures v.facts == w.facts && v.revision == w.revision
  {
    StepFrame(w, a, v);
  }

  lemma RevisionsStep(w: World, a: Action, v: World)
    requires RevisionsOk(w) && Next(w, a, v)
    ensures RevisionsOk(v)
  {
    StepFrame(w, a, v);
    if a.Load? {
      ReadRevision(w, Head(w).ref);
      if w.drainer.phase.Rebuilding? {
        ReadRevision(w, w.drainer.phase.refs[0]);
      }
    } else if !a.Mutate? && !a.MutateElsewhere? {
      FactsFrame(w, a, v);
    }
  }

  lemma {:induction false} RevisionsKept(trail: seq<World>, actions: seq<Action>, i: nat)
    requires Run(trail, actions) && RevisionsOk(trail[0]) && i < |trail|
    ensures RevisionsOk(trail[i])
  {
    if i > 0 {
      RevisionsKept(trail, actions, i - 1);
      RevisionsStep(trail[i - 1], actions[i - 1], trail[i]);
    }
  }

  /** The step wipes the index or projects this fact's name. */
  ghost predicate Touches(w: World, a: Action, k: Key) {
    a.Forget? ||
    (a.Project? && w.drainer.Busy?
     && match w.drainer.phase
        case Rebuilt(_, event) => event.Some? && event.value.ref == Render(k)
        case Loaded(event) => event.Some? && event.value.ref == Render(k)
        case _ => false)
  }

  lemma UntouchedEntry(w: World, a: Action, v: World, k: Key)
    requires Next(w, a, v) && !Touches(w, a, k)
    ensures Lookup(v.index, Render(k)) == Lookup(w.index, Render(k))
  {
    StepFrame(w, a, v);
  }

  lemma StaleStep(w: World, a: Action, v: World, k: Key)
    requires RevisionsOk(w) && Stale(w, k) && Next(w, a, v) && !Touches(w, a, k)
    ensures Stale(v, k)
  {
    UntouchedEntry(w, a, v, k);
    assert v.index[Render(k)] == w.index[Render(k)];
    if !a.Mutate? && !a.MutateElsewhere? {
      FactsFrame(w, a, v);
    }
  }

  lemma UntouchedStep(w: World, a: Action, v: World, k: Key)
    requires RevisionsOk(w) && Stale(w, k) && Next(w, a, v) && !Touches(w, a, k)
    ensures RevisionsOk(v) && Stale(v, k)
  {
    RevisionsStep(w, a, v);
    StaleStep(w, a, v, k);
  }

  lemma UntouchedAt(trail: seq<World>, actions: seq<Action>, n: nat, k: Key)
    requires Run(trail, actions) && n < |actions| && !Touches(trail[n], actions[n], k)
    requires RevisionsOk(trail[n]) && Stale(trail[n], k)
    ensures RevisionsOk(trail[n + 1]) && Stale(trail[n + 1], k)
  {
    UntouchedStep(trail[n], actions[n], trail[n + 1], k);
  }

  /** A stale fact stays stale, whoever writes what, until a step wipes the index or projects its name. */
  lemma {:induction false} StaleUntilTouched(trail: seq<World>, actions: seq<Action>, i: nat, j: nat, k: Key)
    requires Run(trail, actions) && i <= j < |trail| && RevisionsOk(trail[i]) && Stale(trail[i], k)
    requires forall n :: i <= n < j ==> !Touches(trail[n], actions[n], k)
    ensures RevisionsOk(trail[j]) && Stale(trail[j], k)
  {
    if i < j {
      StaleUntilTouched(trail, actions, i, j - 1, k);
      UntouchedAt(trail, actions, j - 1, k);
    }
  }

  ghost predicate Resting(w: World) {
    Quiet(w) && w.drainer.Idle?
  }

  lemma QuietRests(w: World)
    requires Inv(w) && Quiet(w)
    ensures Resting(w)
  {
    if w.drainer.Busy? {
      assert Head(w) in w.drainer.claimed;
      assert Pending(w, Head(w));
    }
  }

  lemma RestingStep(w: World, a: Action, v: World)
    requires Resting(w) && Next(w, a, v) && !a.Mutate?
    ensures Resting(v) && v.index == w.index
    ensures !a.Forget? && !a.Project?
  {
    if a.Claim? {
      if a.works != [] {
        assert a.works[0] in a.works;
        assert Pending(w, a.works[0]);
      }
      assert Processed(w.rows, a.works) == w.rows;
    } else if a.Enqueue? {
      assert Pending(w, a.work);
    }
    assert v.rows == w.rows && v.unqueued == w.unqueued;
    assert forall x :: Pending(v, x) == Pending(w, x);
  }

  /** In a quiet dataset it stays stale as long as this dataset writes nothing, however often it is drained and
      whatever the other dataset does. */
  lemma {:induction false} StaleWhileQuiet(trail: seq<World>, actions: seq<Action>, i: nat, k: Key)
    requires Run(trail, actions) && i < |trail| && forall a :: a in actions ==> !a.Mutate?
    requires Resting(trail[0]) && RevisionsOk(trail[0]) && Stale(trail[0], k)
    ensures Resting(trail[i]) && RevisionsOk(trail[i]) && Stale(trail[i], k)
  {
    if i > 0 {
      StaleWhileQuiet(trail, actions, i - 1, k);
      var w, a, v := trail[i - 1], actions[i - 1], trail[i];
      assert a in actions;
      RestingStep(w, a, v);
      RevisionsStep(w, a, v);
      StaleStep(w, a, v, k);
    }
  }

  /** In any quiet state of any run, a write through another dataset makes a settled fact stale although nothing is
      pending here. */
  lemma SecondDatasetGoesStale(trail: seq<World>, actions: seq<Action>, i: nat, k: Key, text: string) returns (v: World)
    requires SafeRun(trail, actions) && i < |trail| && Quiet(trail[i]) && Tracked(trail[i], k) && k in trail[i].facts
    ensures Next(trail[i], MutateElsewhere(k, Some(text)), v)
    ensures Resting(v) && RevisionsOk(v) && k in v.facts && Stale(v, k)
  {
    var w := trail[i];
    StartInv();
    RunKeeps(trail, actions, i);
    RevisionsKept(trail, actions, i);
    QuietMeansSettled(trail, actions, i, k);
    v := w.(facts := w.facts[k := Fact(w.revision + 1, text)], revision := w.revision + 1, foreign := w.foreign + {k});
    QuietRests(w);
    RestingStep(w, MutateElsewhere(k, Some(text)), v);
    RevisionsStep(w, MutateElsewhere(k, Some(text)), v);
  }

  // ---- what one row leaves in the index ------------------------------------------------------------------

  /** One row from its start to the ledger, no writer coming in between. */
  ghost predicate OneRow(trail: seq<World>, actions: seq<Action>) {
    && Run(trail, actions) && (forall a :: a in actions ==> InsideOneRow(a))
    && trail[0].drainer.Busy? && trail[0].drainer.claimed != [] && Head(trail[0]) in trail[0].rows
    && trail[0].drainer.phase == Picked
  }

  ghost function Current(w: World, k: Key): Option<Event> {
    if k in w.facts then Some(EventOf(Render(k), w.facts[k])) else None
  }

  /** The entry of `k` once the row at the head is through: a delete row leaves the current fact if its name is
      active, and nothing otherwise; a put row of this name leaves the current fact, and the old entry if the
      fact is gone; any other put row leaves the old entry. */
  ghost function EntryAfter(w: World, k: Key): Option<Event>
    requires w.drainer.Busy? && w.drainer.claimed != [] && Head(w) in w.rows
  {
    if w.rows[Head(w)].operation == Delete then (if Active(w.rows, Render(k)) then Current(w, k) else None)
    else if Head(w).ref == Render(k) && k in w.facts then Current(w, k)
    else Lookup(w.index, Render(k))
  }

  ghost predicate RowOk(w0: World, w: World, k: Key)
    requires w0.drainer.Busy? && w0.drainer.claimed != [] && Head(w0) in w0.rows
  {
    && w == w0.(index := w.index, ledger := w.ledger, drainer := w.drainer)
    && w.drainer.Busy? && w.drainer.claimed == w0.drainer.claimed
    && var entry, after := Lookup(w.index, Render(k)), EntryAfter(w0, k);
       match w.drainer.phase
       case Picked => w.index == w0.index
       case Wiped => w0.rows[Head(w0)].operation == Delete && w.index == map[]
       case Rebuilding(refs) => w0.rows[Head(w0)].operation == Delete && ListOk(w0, k, refs, entry, after)
       case Rebuilt(refs, event) =>
         && w0.rows[Head(w0)].operation == Delete
         && AllActive(w0, refs)
         && if event.Some? && event.value.ref == Render(k) then event == after else ListOk(w0, k, refs, entry, after)
       case Loaded(event) =>
         && w0.rows[Head(w0)].operation == Put && entry == Lookup(w0.index, Render(k))
         && (if event.Some? && event.value.ref == Render(k) then event == after else entry == after)
       case _ => entry == after
  }

  ghost predicate AllActive(w: World, refs: seq<string>) {
    forall r :: r in refs ==> Active(w.rows, r)
  }

  /** The entry is what it will be, or is still to come from the list. */
  ghost predicate ListOk(w: World, k: Key, refs: seq<string>, entry: Option<Event>, after: Option<Event>) {
    && AllActive(w, refs)
    && (entry == after || (entry.None? && Render(k) in refs))
  }

  lemma ReadOwnName(facts: map<Key, Fact>, k: Key)
    requires CleanKey(k) && ReadEvent(facts, Render(k)).Success?
    ensures ReadEvent(facts, Render(k)).value == if k in facts then Some(EventOf(Render(k), facts[k])) else None
  {
    TargetOfName(k);
  }

  lemma ReadKeepsName(facts: map<Key, Fact>, ref: string)
    ensures var r := ReadEvent(facts, ref); r.Success? && r.value.Some? ==> r.value.value.ref == ref
  {
  }

  lemma LoadPut(w0: World, w: World, v: World, k: Key)
    requires w0.drainer.Busy? && w0.drainer.claimed != [] && Head(w0) in w0.rows && CleanKey(k)
    requires RowOk(w0, w, k) && Next(w, Load, v) && w.drainer.phase == Picked
    ensures RowOk(w0, v, k)
  {
    ReadKeepsName(w.facts, Head(w).ref);
    if Head(w).ref == Render(k) {
      ReadOwnName(w.facts, k);
    }
  }

  lemma LoadListed(w0: World, w: World, v: World, k: Key)
    requires w0.drainer.Busy? && w0.drainer.claimed != [] && Head(w0) in w0.rows && CleanKey(k)
    requires RowOk(w0, w, k) && Next(w, Load, v) && w.drainer.phase.Rebuilding?
    ensures RowOk(w0, v, k)
  {
    var refs := w.drainer.phase.refs;
    ReadKeepsName(w.facts, refs[0]);
    if refs[0] == Render(k) {
      ReadOwnName(w.facts, k);
    }
    assert refs == [refs[0]] + refs[1..];
  }

  lemma ListRow(w0: World, w: World, v: World, k: Key)
    requires w0.drainer.Busy? && w0.drainer.claimed != [] && Head(w0) in w0.rows
    requires RowOk(w0, w, k) && Next(w, ListRefs, v)
    ensures RowOk(w0, v, k)
  {
    assert Render(k) in v.drainer.phase.refs <==> Active(w0.rows, Render(k));
  }

  lemma ProjectedEntry(index: map<string, Event>, event: Option<Event>, r: string)
    ensures Lookup(Put1(index, event), r) == if event.Some? && event.value.ref == r then event else Lookup(index, r)
  {
  }

  lemma ProjectPut(w0: World, w: World, v: World, k: Key)
    requires w0.drainer.Busy? && w0.drainer.claimed != [] && Head(w0) in w0.rows
    requires RowOk(w0, w, k) && Next(w, Project, v) && w.drainer.phase.Loaded?
    ensures RowOk(w0, v, k)
  {
    ProjectedEntry(w.index, w.drainer.phase.event, Render(k));
  }

  lemma ProjectListed(w0: World, w: World, v: World, k: Key)
    requires w0.drainer.Busy? && w0.drainer.claimed != [] && Head(w0) in w0.rows
    requires RowOk(w0, w, k) && Next(w, Project, v) && w.drainer.phase.Rebuilt?
    ensures RowOk(w0, v, k)
  {
    ProjectedEntry(w.index, w.drainer.phase.event, Render(k));
  }

  lemma RowStep(w0: World, w: World, a: Action, v: World, k: Key)
    requires w0.drainer.Busy? && w0.drainer.claimed != [] && Head(w0) in w0.rows && CleanKey(k)
    requires RowOk(w0, w, k) && Next(w, a, v) && InsideOneRow(a)
    ensures RowOk(w0, v, k)
  {
    match a
    case Forget =>
    case ListRefs => ListRow(w0, w, v, k);
    case Load => if w.drainer.phase.Rebuilding? { LoadListed(w0, w, v, k); } else { LoadPut(w0, w, v, k); }
    case Project => if w.drainer.phase.Rebuilt? { ProjectListed(w0, w, v, k); } else { ProjectPut(w0, w, v, k); }
    case Mark =>
  }

  lemma {:induction false} RowKept(trail: seq<World>, actions: seq<Action>, i: nat, k: Key)
    requires OneRow(trail, actions) && CleanKey(k) && i < |trail|
    ensures RowOk(trail[0], trail[i], k)
  {
    if i > 0 {
      RowKept(trail, actions, i - 1, k);
      assert actions[i - 1] in actions;
      RowStep(trail[0], trail[i - 1], actions[i - 1], trail[i], k);
    }
  }

  /** A row that gets through without a writer in between leaves exactly this entry. So a stale fact is settled by
      the next delete row exactly if it is gone or its name is active, and by the next put row of its name exactly
      if it still exists. */
  lemma RowLeaves(trail: seq<World>, actions: seq<Action>, k: Key)
    requires OneRow(trail, actions) && CleanKey(k)
    requires var end := trail[|trail| - 1]; end.drainer.Busy? && end.drainer.phase == Marked
    ensures var w, end := trail[0], trail[|trail| - 1];
      && end.facts == w.facts && end.rows == w.rows
      && Lookup(end.index, Render(k)) == EntryAfter(w, k)
      && (Settled(end, k) <==> EntryAfter(w, k) == Current(w, k))
  {
    RowKept(trail, actions, |trail| - 1, k);
    SettledIsCurrent(trail[|trail| - 1], k);
  }

  lemma SettledIsCurrent(w: World, k: Key)
    ensures Settled(w, k) <==> Lookup(w.index, Render(k)) == Current(w, k)
  {
    if k in w.facts && Render(k) in w.index && Mirrors(w.index[Render(k)], Render(k), w.facts[k]) {
      MirrorsOnly(w.index[Render(k)], Render(k), w.facts[k]);
    }
  }

  lemma StaleSettledBy(trail: seq<World>, actions: seq<Action>, k: Key)
    requires OneRow(trail, actions) && CleanKey(k) && Stale(trail[0], k)
    requires var end := trail[|trail| - 1]; end.drainer.Busy? && end.drainer.phase == Marked
    ensures var w := trail[0];
      Settled(trail[|trail| - 1], k) <==>
      if w.rows[Head(w)].operation == Delete then k in w.facts ==> Active(w.rows, Render(k))
      else Head(w).ref == Render(k) && k in w.facts
  {
    RowLeaves(trail, actions, k);
  }
}
